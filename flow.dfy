/** Properties of the two-factor login flow that span several requests: what login leaves
    in the session, the resend cooldown, the lifetime of an e-mailed code, and what the
    two_factor_required guard admits afterwards. */
module TwoFactorFlow {
  import opened Wrappers
  import opened Http
  import opened Sessions
  import opened Accounts
  import AccountUtils
  import Decorators
  import PyText

  predicate IsAction(req: Request, action: string) {
    req.verb == Post && Field(req, "action") == Some(action)
  }

  /** No session produced by a login POST gets through two_factor_required: either it is
      empty, or it is waiting for a second factor with no truthy is_2fa_verified. */
  lemma FreshLoginIsGated<A, R>(data: map<string, Value>, req: Request, users: seq<User>,
                                devices: map<UserId, TotpDevice>, authenticate: (string, Option<string>) -> bool,
                                view: (Decorators.AppRequest, A) -> R, authenticated: bool, http: Request, args: A)
    requires req.verb == Post
    ensures Decorators.TwoFactorRequired(view, Decorators.AppRequest(authenticated, LoginStep(data, req, users, devices, authenticate).session, http), args).Redirected?
  {
    var s := LoginStep(data, req, users, devices, authenticate).session;
    assert !Truthy(Lookup(s, IS_2FA_VERIFIED));
  }

  /** The two ways a login POST fails (no user with that e-mail, or a password that does not
      authenticate) cannot be told apart: same page, same error, empty session. */
  lemma LoginFailureIsUniform(data: map<string, Value>, req: Request, users: seq<User>,
                              devices: map<UserId, TotpDevice>, authenticate: (string, Option<string>) -> bool)
    requires req.verb == Post
    requires var k := FirstByEmail(users, Field(req, "email"));
      k.None? || !authenticate(users[k.value].username, Field(req, "password"))
    ensures LoginStep(data, req, users, devices, authenticate)
      == Step(Render(LoginPage, ErrorContext(INVALID_CREDENTIALS)), map[], None)
  {
  }

  /** While the cooldown runs, "send" changes nothing: the stored hash and time stay, no mail goes out. */
  lemma SendDuringCooldownIsRefused(data: map<string, Value>, req: Request, users: seq<User>, now: int,
                                   codeLength: nat, draw: nat -> AccountUtils.Digit, hash: string -> string, authHashOf: string -> string)
    requires WellTyped(data) && Truthy(Lookup(data, PRE_2FA_USER_ID))
    requires UserById(users, data[PRE_2FA_USER_ID].i).Some?
    requires IsAction(req, "send") && Cooldown(data, now) > 0
    ensures var r := EmailStep(data, req, users, now, codeLength, draw, hash, authHashOf);
      r.session == data && r.mail == None &&
      r.resp == Render(VerifyPage, Context(Some(WaitMessage(Cooldown(data, now))), Some(true), Some(Cooldown(data, now)), None))
  {
  }

  /** A "send" that goes through stores hash_code(code) and the current time, and mails that code. */
  lemma SendStoresHashAndTime(data: map<string, Value>, req: Request, users: seq<User>, now: int,
                              codeLength: nat, draw: nat -> AccountUtils.Digit, hash: string -> string, authHashOf: string -> string)
    requires WellTyped(data) && Truthy(Lookup(data, PRE_2FA_USER_ID))
    requires UserById(users, data[PRE_2FA_USER_ID].i).Some?
    requires IsAction(req, "send") && Cooldown(data, now) == 0
    ensures var r := EmailStep(data, req, users, now, codeLength, draw, hash, authHashOf);
      var code := AccountUtils.GenerateCode(codeLength, draw);
      && r.session == data[CODE_HASH := StrV(hash(code))][CREATED_AT := IntV(now)]
      && r.mail == Some(Mail(MAIL_SUBJECT, MailBody(code), [UserById(users, data[PRE_2FA_USER_ID].i).value.email]))
  {
  }

  /** After a code is sent at time t, every "send" in the next 59 seconds is refused, whatever
      digits it would draw. (t = 0 is excluded: the view reads a stored 0 as "never sent".) */
  lemma ResendWithinCooldownIsRefused(data: map<string, Value>, req: Request, users: seq<User>, t: int, later: int,
                                      codeLength: nat, draw: nat -> AccountUtils.Digit, draw2: nat -> AccountUtils.Digit,
                                      hash: string -> string, authHashOf: string -> string)
    requires WellTyped(data) && Truthy(Lookup(data, PRE_2FA_USER_ID))
    requires UserById(users, data[PRE_2FA_USER_ID].i).Some?
    requires IsAction(req, "send") && Cooldown(data, t) == 0
    requires t != 0 && t <= later < t + RESEND_COOLDOWN
    ensures var first := EmailStep(data, req, users, t, codeLength, draw, hash, authHashOf);
      var second := EmailStep(first.session, req, users, later, codeLength, draw2, hash, authHashOf);
      first.mail.Some? && second.session == first.session && second.mail == None
  {
    SendStoresHashAndTime(data, req, users, t, codeLength, draw, hash, authHashOf);
    var first := EmailStep(data, req, users, t, codeLength, draw, hash, authHashOf);
    assert first.session[CREATED_AT] == IntV(t) && first.session[PRE_2FA_USER_ID] == data[PRE_2FA_USER_ID];
    assert Cooldown(first.session, later) == RESEND_COOLDOWN - (later - t);
    SendDuringCooldownIsRefused(first.session, req, users, later, codeLength, draw2, hash, authHashOf);
  }

  /** A rejected "verify" (nothing requested, expired, wrong code) leaves the session as it was. */
  lemma RejectedVerifyLeavesSession(data: map<string, Value>, req: Request, users: seq<User>, now: int,
                                    codeLength: nat, draw: nat -> AccountUtils.Digit, hash: string -> string, authHashOf: string -> string)
    requires WellTyped(data) && IsAction(req, "verify")
    requires CheckEmailCode(data, now, Field(req, "code"), hash) != Accepted
    ensures EmailStep(data, req, users, now, codeLength, draw, hash, authHashOf).session == data
  {
  }

  /** An accepted "verify" drops the code hash, its time and pre_2fa_user_id, marks the session
      verified and logs the user in through ModelBackend under their session auth hash. */
  lemma AcceptedVerifyClearsCode(data: map<string, Value>, req: Request, users: seq<User>, now: int,
                                 codeLength: nat, draw: nat -> AccountUtils.Digit, hash: string -> string, authHashOf: string -> string)
    requires WellTyped(data) && Truthy(Lookup(data, PRE_2FA_USER_ID))
    requires UserById(users, data[PRE_2FA_USER_ID].i).Some?
    requires IsAction(req, "verify") && CheckEmailCode(data, now, Field(req, "code"), hash) == Accepted
    ensures var r := EmailStep(data, req, users, now, codeLength, draw, hash, authHashOf);
      && r.resp == Redirect(LoginRedirectUrlSetting)
      && CODE_HASH !in r.session && CREATED_AT !in r.session && PRE_2FA_USER_ID !in r.session
      && Lookup(r.session, IS_2FA_VERIFIED) == Some(BoolV(true))
      && var user := UserById(users, data[PRE_2FA_USER_ID].i).value;
      && Lookup(r.session, AUTH_USER_ID) == Some(StrV(PyText.IntToString(user.id)))
      && Lookup(r.session, AUTH_BACKEND) == Some(StrV(MODEL_BACKEND))
      && Lookup(r.session, AUTH_HASH) == Some(StrV(authHashOf(user.password)))
  {
    var d := data - {CODE_HASH, CREATED_AT, PRE_2FA_USER_ID};
    var user := UserById(users, data[PRE_2FA_USER_ID].i).value;
    assert LoggedIn(d, user.id, MODEL_BACKEND, authHashOf(user.password)).Keys <= d.Keys + AUTH_KEYS;
  }

  /** The code that was mailed verifies exactly while it is at most 300 seconds old; this is the
      place where the hash being a function of the code (hash_code is deterministic) is used. */
  lemma MailedCodeVerifiesUntilExpiry(data: map<string, Value>, send: Request, verify: Request, users: seq<User>,
                                      t: int, later: int, codeLength: nat, draw: nat -> AccountUtils.Digit,
                                      draw2: nat -> AccountUtils.Digit, hash: string -> string, authHashOf: string -> string)
    requires WellTyped(data) && Truthy(Lookup(data, PRE_2FA_USER_ID))
    requires UserById(users, data[PRE_2FA_USER_ID].i).Some?
    requires IsAction(send, "send") && Cooldown(data, t) == 0
    requires hash(AccountUtils.GenerateCode(codeLength, draw)) != ""
    requires IsAction(verify, "verify") && Field(verify, "code") == Some(AccountUtils.GenerateCode(codeLength, draw))
    ensures var first := EmailStep(data, send, users, t, codeLength, draw, hash, authHashOf);
      var second := EmailStep(first.session, verify, users, later, codeLength, draw2, hash, authHashOf);
      (second.resp == Redirect(LoginRedirectUrlSetting)) <==> later - t <= CODE_LIFETIME
  {
    SendStoresHashAndTime(data, send, users, t, codeLength, draw, hash, authHashOf);
    var first := EmailStep(data, send, users, t, codeLength, draw, hash, authHashOf);
    var code := AccountUtils.GenerateCode(codeLength, draw);
    assert first.session[CODE_HASH] == StrV(hash(code)) && first.session[CREATED_AT] == IntV(t);
    assert first.session[PRE_2FA_USER_ID] == data[PRE_2FA_USER_ID];
    if later - t <= CODE_LIFETIME {
      assert CheckEmailCode(first.session, later, Field(verify, "code"), hash) == Accepted;
    } else {
      assert CheckEmailCode(first.session, later, Field(verify, "code"), hash) == Expired;
    }
  }

  /** From a session waiting for the e-mailed code: send, then submit the mailed code within
      300 seconds, and the guard lets an authenticated request through. */
  lemma SendThenVerifyAdmits<A, R>(uid: UserId, send: Request, verify: Request, users: seq<User>,
                                   t: int, later: int, codeLength: nat, draw: nat -> AccountUtils.Digit,
                                   hash: string -> string, authHashOf: string -> string,
                                   view: (Decorators.AppRequest, A) -> R, http: Request, args: A)
    requires uid != 0 && UserById(users, uid).Some?
    requires IsAction(send, "send") && t != 0 && t <= later <= t + CODE_LIFETIME
    requires hash(AccountUtils.GenerateCode(codeLength, draw)) != ""
    requires IsAction(verify, "verify") && Field(verify, "code") == Some(AccountUtils.GenerateCode(codeLength, draw))
    ensures var s1 := EmailStep(EmailPending(uid), send, users, t, codeLength, draw, hash, authHashOf).session;
      var s2 := EmailStep(s1, verify, users, later, codeLength, draw, hash, authHashOf).session;
      Decorators.TwoFactorRequired(view, Decorators.AppRequest(true, s2, http), args) == Decorators.Ran(view(Decorators.AppRequest(true, s2, http), args))
  {
    var s0 := EmailPending(uid);
    assert WellTyped(s0) && Truthy(Lookup(s0, PRE_2FA_USER_ID)) && s0[PRE_2FA_USER_ID].i == uid;
    assert Cooldown(s0, t) == 0;
    MailedCodeVerifiesUntilExpiry(s0, send, verify, users, t, later, codeLength, draw, draw, hash, authHashOf);
    SendStoresHashAndTime(s0, send, users, t, codeLength, draw, hash, authHashOf);
    var s1 := EmailStep(s0, send, users, t, codeLength, draw, hash, authHashOf).session;
    var code := AccountUtils.GenerateCode(codeLength, draw);
    assert s1 == s0[CODE_HASH := StrV(hash(code))][CREATED_AT := IntV(t)];
    assert WellTyped(s1) && Truthy(Lookup(s1, PRE_2FA_USER_ID)) && s1[PRE_2FA_USER_ID].i == uid;
    assert CheckEmailCode(s1, later, Field(verify, "code"), hash) == Accepted;
    AcceptedVerifyClearsCode(s1, verify, users, later, codeLength, draw, hash, authHashOf);
  }

  /** A successful login without a confirmed TOTP device leaves a session waiting for the
      e-mailed code of a user that exists. */
  lemma EmailLoginIsPending(data: map<string, Value>, login: Request, users: seq<User>,
                            devices: map<UserId, TotpDevice>, authenticate: (string, Option<string>) -> bool)
    requires login.verb == Post
    requires LoginStep(data, login, users, devices, authenticate).resp == Redirect(AccountsVerify)
    requires forall j :: 0 <= j < |users| ==> users[j].id > 0
    ensures exists uid :: uid != 0 && UserById(users, uid).Some? && LoginStep(data, login, users, devices, authenticate).session == EmailPending(uid)
  {
    var k := FirstByEmail(users, Field(login, "email")).value;
    var uid := users[k].id;
    assert UserById(users, uid).Some?;
  }

  /** The whole e-mail path: log in as a user without a confirmed TOTP device, send a code,
      submit it within 300 seconds, and the guard then lets an authenticated request through. */
  lemma EmailPathReachesDashboard<A, R>(data: map<string, Value>, login: Request, send: Request, verify: Request,
                                        users: seq<User>, devices: map<UserId, TotpDevice>,
                                        authenticate: (string, Option<string>) -> bool,
                                        t: int, later: int, codeLength: nat, draw: nat -> AccountUtils.Digit,
                                        hash: string -> string, authHashOf: string -> string,
                                        view: (Decorators.AppRequest, A) -> R, http: Request, args: A)
    requires forall j :: 0 <= j < |users| ==> users[j].id > 0
    requires login.verb == Post
    requires LoginStep(data, login, users, devices, authenticate).resp == Redirect(AccountsVerify)
    requires IsAction(send, "send") && t != 0 && t <= later <= t + CODE_LIFETIME
    requires hash(AccountUtils.GenerateCode(codeLength, draw)) != ""
    requires IsAction(verify, "verify") && Field(verify, "code") == Some(AccountUtils.GenerateCode(codeLength, draw))
    ensures var s0 := LoginStep(data, login, users, devices, authenticate).session;
      var s1 := EmailStep(s0, send, users, t, codeLength, draw, hash, authHashOf).session;
      var s2 := EmailStep(s1, verify, users, later, codeLength, draw, hash, authHashOf).session;
      Decorators.TwoFactorRequired(view, Decorators.AppRequest(true, s2, http), args) == Decorators.Ran(view(Decorators.AppRequest(true, s2, http), args))
  {
    EmailLoginIsPending(data, login, users, devices, authenticate);
    var uid :| uid != 0 && UserById(users, uid).Some? && LoginStep(data, login, users, devices, authenticate).session == EmailPending(uid);
    SendThenVerifyAdmits(uid, send, verify, users, t, later, codeLength, draw, hash, authHashOf, view, http, args);
  }

  /** A correct authenticator-app code logs the user in, marks the session verified and drops
      pre_totp_user_id; a wrong one changes nothing. */
  lemma TotpVerifyOutcome(data: map<string, Value>, req: Request, users: seq<User>,
                          devices: map<UserId, TotpDevice>, verify: (string, Option<string>) -> bool,
                          authHashOf: string -> string)
    requires WellTyped(data) && Truthy(Lookup(data, PRE_TOTP_USER_ID))
    requires UserById(users, data[PRE_TOTP_USER_ID].i).Some?
    requires DeviceConfirmed(devices, data[PRE_TOTP_USER_ID].i) && req.verb == Post
    ensures var r := TotpStep(data, req, users, devices, verify, authHashOf);
      if verify(devices[data[PRE_TOTP_USER_ID].i].secret, Field(req, "code")) then
        && r.resp == Redirect(LoginRedirectUrlSetting)
        && Lookup(r.session, IS_2FA_VERIFIED) == Some(BoolV(true))
        && PRE_TOTP_USER_ID !in r.session
        && Lookup(r.session, AUTH_USER_ID) == Some(StrV(PyText.IntToString(data[PRE_TOTP_USER_ID].i)))
        && Lookup(r.session, AUTH_HASH) == Some(StrV(authHashOf(UserById(users, data[PRE_TOTP_USER_ID].i).value.password)))
      else r.session == data && r.resp == Render(VerifyTotpPage, ErrorContext(WRONG_CODE))
  {
  }

  /** The TOTP view sends back to login, untouched, any session without a pending user whose
      device is confirmed: a user cannot reach the TOTP check through the e-mail branch. */
  lemma TotpNeedsConfirmedDevice(data: map<string, Value>, req: Request, users: seq<User>,
                                 devices: map<UserId, TotpDevice>, verify: (string, Option<string>) -> bool,
                                 authHashOf: string -> string)
    requires WellTyped(data)
    requires !Truthy(Lookup(data, PRE_TOTP_USER_ID)) || !DeviceConfirmed(devices, data[PRE_TOTP_USER_ID].i)
    requires Truthy(Lookup(data, PRE_TOTP_USER_ID)) ==> UserById(users, data[PRE_TOTP_USER_ID].i).Some?
    ensures TotpStep(data, req, users, devices, verify, authHashOf) == Step(Redirect(AccountsLogin), data, None)
  {
  }
}
