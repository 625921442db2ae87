/** The accounts views: e-mail/password login that branches to a second factor, the
    e-mail code and TOTP verification views, TOTP setup and removal, and the password
    change on the profile page. Every foreign call (Django's authenticate, password
    hashing and validation, pyotp's verify, SHA-256 inside hash_code) is a parameter. */
module Accounts {
  import opened Wrappers
  import opened Http
  import opened Sessions
  import PyText
  import AccountUtils

  type UserId = int

  /** A django.contrib.auth User row; password holds the stored password hash. */
  datatype User = User(id: UserId, username: string, email: string, password: string)

  /** A TOTPDevice row (one per user); confirmed defaults to False. */
  datatype TotpDevice = TotpDevice(secret: string, confirmed: bool)

  /** An e-mail handed to send_mail (the sender address is a setting, not modelled). */
  datatype Mail = Mail(subject: string, body: string, recipients: seq<string>)

  /** What one request does: the response, the session afterwards, the e-mail it sends. */
  datatype Step = Step(resp: Response, session: map<string, Value>, mail: Option<Mail>)

  const INVALID_CREDENTIALS := "Неверные данные"
  const CODE_NOT_REQUESTED := "Сначала запросите код"
  const CODE_EXPIRED := "Код устарел, запросите новый"
  const WRONG_CODE := "Неверный код"
  const MAIL_SUBJECT := "Ваш код подтверждения"
  const TOTP_NOT_CONNECTED := "Google Authenticator не подключён"
  const ENTER_CODE := "Введите код"
  const TOTP_DISABLED := "Google Authenticator отключён"
  const OLD_PASSWORD_WRONG := "Старый пароль неверный"
  const PASSWORDS_DIFFER := "Пароли не совпадают"
  const PASSWORD_CHANGED := "Пароль успешно изменён"

  /** Seconds before another code may be sent, and seconds a code stays valid. */
  const RESEND_COOLDOWN := 60
  const CODE_LIFETIME := 300

  function WaitMessage(cooldown: int): string {
    "Подождите " + PyText.IntToString(cooldown) + " сек."
  }

  function MailBody(code: string): string {
    "Ваш код для входа: " + code
  }

  /** User.objects.filter(email=email).first(): an unordered queryset's first() orders by the
      primary key, so this is the position of the user with the lowest id among those with that
      e-mail (the earliest such position on equal ids); a missing form field (None) matches no
      row, as e-mail is never NULL. */
  function FirstByEmail(users: seq<User>, email: Option<string>): (r: Option<nat>)
    ensures r.Some? ==> r.value < |users| && Some(users[r.value].email) == email
    ensures r.Some? ==> forall j :: 0 <= j < |users| && Some(users[j].email) == email ==>
      users[r.value].id < users[j].id || (users[r.value].id == users[j].id && r.value <= j)
    ensures r.None? ==> forall j :: 0 <= j < |users| ==> Some(users[j].email) != email
  {
    if users == [] then None
    else
      var rest := FirstByEmail(users[1..], email);
      if Some(users[0].email) != email then
        match rest
        case Some(k) => Some(k + 1)
        case None => None
      else
        match rest
        case Some(k) => if users[k + 1].id < users[0].id then Some(k + 1) else Some(0)
        case None => Some(0)
  }

  /** User.objects.get(id=id); None where it raises DoesNotExist. */
  function UserById(users: seq<User>, id: UserId): (r: Option<User>)
    ensures r.Some? ==> r.value in users && r.value.id == id
    ensures r.None? ==> forall j :: 0 <= j < |users| ==> users[j].id != id
  {
    if users == [] then None
    else if users[0].id == id then Some(users[0])
    else UserById(users[1..], id)
  }

  /** getattr(user, "totp_device", None) exists and is confirmed. */
  predicate DeviceConfirmed(devices: map<UserId, TotpDevice>, uid: UserId) {
    uid in devices && devices[uid].confirmed
  }

  /** The session right after a login that goes on to the authenticator-app code. */
  function TotpPending(uid: UserId): map<string, Value> {
    map[PRE_TOTP_USER_ID := IntV(uid)]
  }

  /** The session right after a login that goes on to the e-mailed code. */
  function EmailPending(uid: UserId): map<string, Value> {
    map[PRE_2FA_USER_ID := IntV(uid), IS_2FA_VERIFIED := BoolV(false)]
  }

  // ---------------------------------------------------------------- login_view

  /** login_view. A POST empties the session first; an unknown e-mail and a wrong password
      for the user the e-mail selects give the same error and leave it empty; when that user
      authenticates, a confirmed TOTP device leads to pre_totp_user_id alone, anything else to
      pre_2fa_user_id with is_2fa_verified False. */
  function LoginStep(data: map<string, Value>, req: Request, users: seq<User>,
                     devices: map<UserId, TotpDevice>,
                     authenticate: (string, Option<string>) -> bool): (r: Step)
    ensures r.mail == None
    ensures req.verb == Get ==> r == Step(Render(LoginPage, NoContext), data, None)
    ensures req.verb == Post ==>
      var k := FirstByEmail(users, Field(req, "email"));
      if k.None? || !authenticate(users[k.value].username, Field(req, "password")) then
        r.resp == Render(LoginPage, ErrorContext(INVALID_CREDENTIALS)) && r.session == map[]
      else if DeviceConfirmed(devices, users[k.value].id) then
        r.resp == Redirect(AccountsVerifyTotp) && r.session == TotpPending(users[k.value].id)
      else
        r.resp == Redirect(AccountsVerify) && r.session == EmailPending(users[k.value].id)
  {
    if req.verb != Post then Step(Render(LoginPage, NoContext), data, None)
    else
      match FirstByEmail(users, Field(req, "email"))
      case None => Step(Render(LoginPage, ErrorContext(INVALID_CREDENTIALS)), map[], None)
      case Some(k) =>
        var user := users[k];
        if !authenticate(user.username, Field(req, "password")) then
          Step(Render(LoginPage, ErrorContext(INVALID_CREDENTIALS)), map[], None)
        else if DeviceConfirmed(devices, user.id) then
          Step(Redirect(AccountsVerifyTotp), TotpPending(user.id), None)
        else
          Step(Redirect(AccountsVerify), EmailPending(user.id), None)
  }

  method LoginView(req: Request, session: Session, users: seq<User>, devices: map<UserId, TotpDevice>,
                   authenticate: (string, Option<string>) -> bool) returns (resp: Response)
    requires session.Valid()
    modifies session
    ensures session.Valid()
    ensures Step(resp, session.data, None) == LoginStep(old(session.data), req, users, devices, authenticate)
  {
    if req.verb == Post {
      session.Flush();
      var found := FirstByEmail(users, Field(req, "email"));
      if found.None? {
        return Render(LoginPage, ErrorContext(INVALID_CREDENTIALS));
      }
      var user := users[found.value];
      if !authenticate(user.username, Field(req, "password")) {
        return Render(LoginPage, ErrorContext(INVALID_CREDENTIALS));
      }
      if DeviceConfirmed(devices, user.id) {
        session.Set(PRE_TOTP_USER_ID, IntV(user.id));
        return Redirect(AccountsVerifyTotp);
      } else {
        session.Set(PRE_2FA_USER_ID, IntV(user.id));
        session.Set(IS_2FA_VERIFIED, BoolV(false));
        return Redirect(AccountsVerify);
      }
    }
    return Render(LoginPage, NoContext);
  }

  // ------------------------------------------------------------ verify_2fa_view

  /** Seconds until another code may be sent: max(0, 60 - (now - sent_at)) when a truthy
      2fa_created_at is stored, else 0. */
  function Cooldown(data: map<string, Value>, now: int): (r: int)
    requires WellTyped(data)
    ensures r >= 0
    ensures !Truthy(Lookup(data, CREATED_AT)) ==> r == 0
    ensures Truthy(Lookup(data, CREATED_AT)) && now >= data[CREATED_AT].i ==> r <= RESEND_COOLDOWN
    ensures Truthy(Lookup(data, CREATED_AT)) ==>
      (r == 0 <==> now - data[CREATED_AT].i >= RESEND_COOLDOWN) &&
      (r > 0 ==> r == RESEND_COOLDOWN - (now - data[CREATED_AT].i))
  {
    if Truthy(Lookup(data, CREATED_AT)) then
      var left := RESEND_COOLDOWN - (now - data[CREATED_AT].i);
      if left > 0 then left else 0
    else 0
  }

  /** How the "verify" action judges a submitted code. */
  datatype Verdict = NotRequested | Expired | NoCode | WrongCode | Accepted

  /** The three checks of the "verify" action, in order: a hash is stored, the code is at most
      300 seconds old (2fa_created_at read as 0 when absent), and the submitted code hashes to
      the stored hash. hash_code(None) raises, which is NoCode. */
  function CheckEmailCode(data: map<string, Value>, now: int, code: Option<string>,
                          hash: string -> string): (v: Verdict)
    requires WellTyped(data)
    ensures v == Accepted ==>
      && Truthy(Lookup(data, CODE_HASH))
      && now - (if CREATED_AT in data then data[CREATED_AT].i else 0) <= CODE_LIFETIME
      && code.Some? && StrV(hash(code.value)) == data[CODE_HASH]
  {
    if !Truthy(Lookup(data, CODE_HASH)) then NotRequested
    else if now - (if CREATED_AT in data then data[CREATED_AT].i else 0) > CODE_LIFETIME then Expired
    else if code.None? then NoCode
    else if hash(code.value) != data[CODE_HASH].s then WrongCode
    else Accepted
  }

  /** The session after a successful e-mail verification: the code keys are popped, the
      user is logged in through ModelBackend under authHash, and the flag set. */
  function EmailVerified(data: map<string, Value>, uid: UserId, authHash: string): map<string, Value> {
    LoggedIn(data - {CODE_HASH, CREATED_AT, PRE_2FA_USER_ID}, uid, MODEL_BACKEND, authHash)[IS_2FA_VERIFIED := BoolV(true)]
  }

  /** What the "verify" action does once the code is judged: only an accepted code touches the session. */
  function VerifyOutcome(v: Verdict, data: map<string, Value>, uid: UserId, authHash: string): (r: Step)
    requires WellTyped(data)
    ensures WellTyped(r.session) && r.mail == None
    ensures v != Accepted ==> r.session == data
  {
    match v
    case NotRequested => Step(Render(VerifyPage, ErrorContext(CODE_NOT_REQUESTED)), data, None)
    case Expired => Step(Render(VerifyPage, ErrorContext(CODE_EXPIRED)), data, None)
    case NoCode => Step(ServerError, data, None)
    case WrongCode => Step(Render(VerifyPage, Context(Some(WRONG_CODE), Some(true), None, None)), data, None)
    case Accepted => Step(Redirect(LoginRedirectUrlSetting), EmailVerified(data, uid, authHash), None)
  }

  /** The outcome of sending a fresh code. */
  function SendCode(data: map<string, Value>, user: User, now: int, codeLength: nat,
                    draw: nat -> AccountUtils.Digit, hash: string -> string): Step
  {
    var code := AccountUtils.GenerateCode(codeLength, draw);
    Step(Render(VerifyPage, Context(None, Some(true), Some(RESEND_COOLDOWN), None)),
         data[CODE_HASH := StrV(hash(code))][CREATED_AT := IntV(now)],
         Some(Mail(MAIL_SUBJECT, MailBody(code), [user.email])))
  }

  /** verify_2fa_view at time now (seconds); draw supplies the random digits and authHashOf
      stands for User.get_session_auth_hash, a keyed HMAC of the stored password hash. */
  function EmailStep(data: map<string, Value>, req: Request, users: seq<User>, now: int,
                     codeLength: nat, draw: nat -> AccountUtils.Digit,
                     hash: string -> string, authHashOf: string -> string): (r: Step)
    requires WellTyped(data)
    ensures WellTyped(r.session)
    ensures r.mail.Some? ==> r.session.Keys == data.Keys + {CODE_HASH, CREATED_AT}
  {
    if !Truthy(Lookup(data, PRE_2FA_USER_ID)) then Step(Redirect(AccountsLogin), data, None)
    else
      var uid := data[PRE_2FA_USER_ID].i;
      match UserById(users, uid)
      case None => Step(ServerError, data, None)
      case Some(user) =>
        var cooldown := Cooldown(data, now);
        if req.verb == Post && Field(req, "action") == Some("send") then
          if cooldown > 0 then
            Step(Render(VerifyPage, Context(Some(WaitMessage(cooldown)), Some(true), Some(cooldown), None)), data, None)
          else
            SendCode(data, user, now, codeLength, draw, hash)
        else if req.verb == Post && Field(req, "action") == Some("verify") then
          VerifyOutcome(CheckEmailCode(data, now, Field(req, "code"), hash), data, uid, authHashOf(user.password))
        else
          Step(Render(VerifyPage, Context(None, Some(Truthy(Lookup(data, CREATED_AT))), Some(cooldown), None)), data, None)
  }

  method VerifyEmailView(req: Request, session: Session, users: seq<User>, now: int, codeLength: nat,
                         draw: nat -> AccountUtils.Digit, hash: string -> string, authHashOf: string -> string)
    returns (resp: Response, mail: Option<Mail>)
    requires session.Valid()
    modifies session
    ensures session.Valid()
    ensures Step(resp, session.data, mail) == EmailStep(old(session.data), req, users, now, codeLength, draw, hash, authHashOf)
  {
    mail := None;
    var userId := session.Get(PRE_2FA_USER_ID);
    if !Truthy(userId) {
      return Redirect(AccountsLogin), None;
    }
    var uid := userId.value.i;
    var user := UserById(users, uid);
    if user.None? {
      return ServerError, None;
    }
    var sentAt := session.Get(CREATED_AT);
    var cooldown := Cooldown(session.data, now);

    if req.verb == Post && Field(req, "action") == Some("send") {
      if cooldown > 0 {
        return Render(VerifyPage, Context(Some(WaitMessage(cooldown)), Some(true), Some(cooldown), None)), None;
      }
      var code := AccountUtils.GenerateCode(codeLength, draw);
      session.Set(CODE_HASH, StrV(hash(code)));
      session.Set(CREATED_AT, IntV(now));
      mail := Some(Mail(MAIL_SUBJECT, MailBody(code), [user.value.email]));
      return Render(VerifyPage, Context(None, Some(true), Some(RESEND_COOLDOWN), None)), mail;
    }

    if req.verb == Post && Field(req, "action") == Some("verify") {
      resp := VerifyAction(session, uid, now, Field(req, "code"), hash, authHashOf(user.value.password));
      return resp, None;
    }

    return Render(VerifyPage, Context(None, Some(Truthy(sentAt)), Some(cooldown), None)), None;
  }

  /** Three pops in a row remove the three keys at once. */
  lemma RemoveThree<K, V>(m: map<K, V>, a: K, b: K, c: K)
    ensures m - {a} - {b} - {c} == m - {a, b, c}
  {
  }

  /** The "verify" action of verify_2fa_view, checks in source order. */
  method VerifyAction(session: Session, uid: UserId, now: int, code: Option<string>, hash: string -> string,
                      authHash: string)
    returns (resp: Response)
    requires session.Valid()
    modifies session
    ensures session.Valid()
    ensures Step(resp, session.data, None) == VerifyOutcome(CheckEmailCode(old(session.data), now, code, hash), old(session.data), uid, authHash)
  {
    var storedHash := session.Get(CODE_HASH);
    if !Truthy(storedHash) {
      return Render(VerifyPage, ErrorContext(CODE_NOT_REQUESTED));
    }
    var createdAt := if CREATED_AT in session.data then session.data[CREATED_AT].i else 0;
    if now - createdAt > CODE_LIFETIME {
      return Render(VerifyPage, ErrorContext(CODE_EXPIRED));
    }
    if code.None? {
      return ServerError;
    }
    if hash(code.value) != storedHash.value.s {
      return Render(VerifyPage, Context(Some(WRONG_CODE), Some(true), None, None));
    }
    ghost var before := session.data;
    session.Pop(CODE_HASH);
    session.Pop(CREATED_AT);
    session.Pop(PRE_2FA_USER_ID);
    RemoveThree(before, CODE_HASH, CREATED_AT, PRE_2FA_USER_ID);
    session.Login(uid, MODEL_BACKEND, authHash);
    session.Set(IS_2FA_VERIFIED, BoolV(true));
    return Redirect(LoginRedirectUrlSetting);
  }

  // ----------------------------------------------------------- verify_totp_view

  /** The session after a successful authenticator-app code: login through ModelBackend under
      authHash, the flag set, then pre_totp_user_id popped. */
  function TotpVerified(data: map<string, Value>, uid: UserId, authHash: string): map<string, Value> {
    LoggedIn(data, uid, MODEL_BACKEND, authHash)[IS_2FA_VERIFIED := BoolV(true)] - {PRE_TOTP_USER_ID}
  }

  /** verify_totp_view; verify stands for pyotp's TOTP(secret).verify(code, valid_window=1)
      and authHashOf for User.get_session_auth_hash. */
  function TotpStep(data: map<string, Value>, req: Request, users: seq<User>,
                    devices: map<UserId, TotpDevice>,
                    verify: (string, Option<string>) -> bool, authHashOf: string -> string): (r: Step)
    requires WellTyped(data)
    ensures WellTyped(r.session) && r.mail == None
  {
    if !Truthy(Lookup(data, PRE_TOTP_USER_ID)) then Step(Redirect(AccountsLogin), data, None)
    else
      var uid := data[PRE_TOTP_USER_ID].i;
      var user := UserById(users, uid);
      if user.None? then Step(ServerError, data, None)
      else if !DeviceConfirmed(devices, uid) then Step(Redirect(AccountsLogin), data, None)
      else if req.verb == Post then
        if verify(devices[uid].secret, Field(req, "code")) then
          Step(Redirect(LoginRedirectUrlSetting), TotpVerified(data, uid, authHashOf(user.value.password)), None)
        else
          Step(Render(VerifyTotpPage, ErrorContext(WRONG_CODE)), data, None)
      else Step(Render(VerifyTotpPage, NoContext), data, None)
  }

  method VerifyTotpView(req: Request, session: Session, users: seq<User>, devices: map<UserId, TotpDevice>,
                        verify: (string, Option<string>) -> bool, authHashOf: string -> string)
    returns (resp: Response)
    requires session.Valid()
    modifies session
    ensures session.Valid()
    ensures Step(resp, session.data, None) == TotpStep(old(session.data), req, users, devices, verify, authHashOf)
  {
    var userId := session.Get(PRE_TOTP_USER_ID);
    if !Truthy(userId) {
      return Redirect(AccountsLogin);
    }
    var uid := userId.value.i;
    var user := UserById(users, uid);
    if user.None? {
      return ServerError;
    }
    if !(uid in devices) || !devices[uid].confirmed {
      return Redirect(AccountsLogin);
    }
    if req.verb == Post {
      if verify(devices[uid].secret, Field(req, "code")) {
        session.Login(uid, MODEL_BACKEND, authHashOf(user.value.password));
        session.Set(IS_2FA_VERIFIED, BoolV(true));
        session.Pop(PRE_TOTP_USER_ID);
        return Redirect(LoginRedirectUrlSetting);
      } else {
        return Render(VerifyTotpPage, ErrorContext(WRONG_CODE));
      }
    }
    return Render(VerifyTotpPage, NoContext);
  }

  // ------------------------------------------- totp_setup and disable_totp_view

  /** The TOTPDevice table, one row per user. */
  class DeviceTable {
    var devices: map<UserId, TotpDevice>

    constructor (devices: map<UserId, TotpDevice>)
      ensures this.devices == devices
    {
      this.devices := devices;
    }
  }

  /** totp_setup for the logged-in user current (None: login_required redirects). The device is
      fetched or created unconfirmed with freshSecret; a confirmed device is left as it is; an
      unconfirmed one becomes confirmed only on a POST whose code verifies. QR rendering is left out. */
  method TotpSetupView(req: Request, current: Option<User>, table: DeviceTable, freshSecret: string,
                       verify: (string, Option<string>) -> bool) returns (resp: Response)
    modifies table
    ensures current.None? ==> resp == Redirect(LoginUrlSetting) && table.devices == old(table.devices)
    ensures current.Some? ==>
      var uid := current.value.id;
      var d := if uid in old(table.devices) then old(table.devices)[uid] else TotpDevice(freshSecret, false);
      var confirm := !d.confirmed && req.verb == Post && verify(d.secret, Field(req, "code"));
      && table.devices == old(table.devices)[uid := if confirm then d.(confirmed := true) else d]
      && resp == (if d.confirmed || confirm then Redirect(AccountsDashboard)
                  else if req.verb == Post then Render(TotpSetupPage, ErrorContext(WRONG_CODE))
                  else Render(TotpSetupPage, NoContext))
    ensures current.Some? ==> forall u :: u in old(table.devices) && u != current.value.id ==>
      u in table.devices && table.devices[u] == old(table.devices)[u]
  {
    if current.None? {
      return Redirect(LoginUrlSetting);
    }
    var uid := current.value.id;
    if uid !in table.devices {
      table.devices := table.devices[uid := TotpDevice(freshSecret, false)];
    }
    var device := table.devices[uid];
    if device.confirmed {
      return Redirect(AccountsDashboard);
    }
    if req.verb == Post {
      if verify(device.secret, Field(req, "code")) {
        table.devices := table.devices[uid := device.(confirmed := true)];
        return Redirect(AccountsDashboard);
      }
      return Render(TotpSetupPage, ErrorContext(WRONG_CODE));
    }
    return Render(TotpSetupPage, NoContext);
  }

  /** disable_totp_view: the device is deleted only when it is confirmed and a POST carries a
      non-empty code that verifies; every other outcome leaves the table as it was. */
  method DisableTotpView(req: Request, current: Option<User>, table: DeviceTable,
                         verify: (string, Option<string>) -> bool) returns (resp: Response, msgs: seq<Message>)
    modifies table
    ensures current.None? ==> resp == Redirect(LoginUrlSetting) && msgs == [] && table.devices == old(table.devices)
    ensures current.Some? ==>
      var uid := current.value.id;
      var code := Field(req, "code");
      var delete := DeviceConfirmed(old(table.devices), uid) && req.verb == Post && code.Some? && code.value != ""
                    && verify(old(table.devices)[uid].secret, code);
      && table.devices == (if delete then old(table.devices) - {uid} else old(table.devices))
      && (resp, msgs) ==
        (if !DeviceConfirmed(old(table.devices), uid) then (Redirect(AccountsProfile), [ErrorMessage(TOTP_NOT_CONNECTED)])
         else if req.verb != Post then (Render(DisableTotpPage, NoContext), [])
         else if code.None? || code.value == "" then (Redirect(AccountsDisableTotp), [ErrorMessage(ENTER_CODE)])
         else if !delete then (Redirect(AccountsDisableTotp), [ErrorMessage(WRONG_CODE)])
         else (Redirect(AccountsProfile), [SuccessMessage(TOTP_DISABLED)]))
  {
    msgs := [];
    if current.None? {
      return Redirect(LoginUrlSetting), [];
    }
    var uid := current.value.id;
    if !(uid in table.devices) || !table.devices[uid].confirmed {
      return Redirect(AccountsProfile), [ErrorMessage(TOTP_NOT_CONNECTED)];
    }
    if req.verb == Post {
      var code := Field(req, "code");
      if code.None? || code.value == "" {
        return Redirect(AccountsDisableTotp), [ErrorMessage(ENTER_CODE)];
      }
      if !verify(table.devices[uid].secret, code) {
        return Redirect(AccountsDisableTotp), [ErrorMessage(WRONG_CODE)];
      }
      table.devices := table.devices - {uid};
      return Redirect(AccountsProfile), [SuccessMessage(TOTP_DISABLED)];
    }
    return Render(DisableTotpPage, NoContext), [];
  }

  // --------------------------------------------------------------- profile_view

  /** The auth_user table. */
  class UserTable {
    var users: seq<User>

    constructor (users: seq<User>)
      ensures this.users == users
    {
      this.users := users;
    }
  }

  /** user.save() after set_password: the row with the user's id is overwritten with the
      in-memory user carrying the new hash (save() inserts the row when none has that id). */
  function SavePassword(users: seq<User>, user: User, newHash: string): (r: seq<User>)
    ensures |r| >= |users|
    ensures (exists i :: 0 <= i < |users| && users[i].id == user.id) ==> |r| == |users|
    ensures forall i :: 0 <= i < |users| && users[i].id != user.id ==> r[i] == users[i]
    ensures forall i :: 0 <= i < |users| && users[i].id == user.id ==> r[i] == user.(password := newHash)
  {
    if exists i :: 0 <= i < |users| && users[i].id == user.id then
      seq(|users|, i requires 0 <= i < |users| => if users[i].id == user.id then user.(password := newHash) else users[i])
    else users + [user.(password := newHash)]
  }

  function ErrorMessages(errors: seq<string>): (r: seq<Message>)
    ensures |r| == |errors| && forall i :: 0 <= i < |r| ==> r[i] == ErrorMessage(errors[i])
  {
    seq(|errors|, i requires 0 <= i < |errors| => ErrorMessage(errors[i]))
  }

  /** profile_view for the logged-in user current. The password changes only on a
      change_password POST whose old password checks, whose new password equals the
      confirmation and passes validation (validate returns the validation errors). */
  method ProfileView(req: Request, current: Option<User>, table: UserTable, devices: map<UserId, TotpDevice>,
                     checkPassword: (string, Option<string>) -> bool,
                     validate: (Option<string>, User) -> seq<string>,
                     makePassword: Option<string> -> string) returns (resp: Response, msgs: seq<Message>)
    modifies table
    ensures current.None? ==> resp == Redirect(LoginUrlSetting) && msgs == [] && table.users == old(table.users)
    ensures current.Some? ==>
      var user := current.value;
      var change := req.verb == Post && Field(req, "action") == Some("change_password");
      var oldOk := checkPassword(user.password, Field(req, "old_password"));
      var newPw := Field(req, "new_password");
      var same := newPw == Field(req, "confirm_password");
      var ok := change && oldOk && same && validate(newPw, user) == [];
      && table.users == (if ok then SavePassword(old(table.users), user, makePassword(newPw)) else old(table.users))
      && resp == (if ok then Redirect(AccountsLogin)
                  else Render(ProfilePage, Context(None, None, None, Some(DeviceConfirmed(devices, user.id)))))
      && msgs == (if !change then []
                  else if !oldOk then [ErrorMessage(OLD_PASSWORD_WRONG)]
                  else if !same then [ErrorMessage(PASSWORDS_DIFFER)]
                  else if ok then [SuccessMessage(PASSWORD_CHANGED)]
                  else ErrorMessages(validate(newPw, user)))
  {
    msgs := [];
    if current.None? {
      return Redirect(LoginUrlSetting), [];
    }
    var user := current.value;
    if req.verb == Post && Field(req, "action") == Some("change_password") {
      var oldPassword := Field(req, "old_password");
      var newPassword := Field(req, "new_password");
      var confirmPassword := Field(req, "confirm_password");
      if !checkPassword(user.password, oldPassword) {
        msgs := [ErrorMessage(OLD_PASSWORD_WRONG)];
      } else if newPassword != confirmPassword {
        msgs := [ErrorMessage(PASSWORDS_DIFFER)];
      } else {
        var errors := validate(newPassword, user);
        if errors == [] {
          table.users := SavePassword(table.users, user, makePassword(newPassword));
          return Redirect(AccountsLogin), [SuccessMessage(PASSWORD_CHANGED)];
        }
        var i := 0;
        while i < |errors|
          invariant 0 <= i <= |errors|
          invariant msgs == ErrorMessages(errors[..i])
        {
          msgs := msgs + [ErrorMessage(errors[i])];
          i := i + 1;
        }
        assert errors[..i] == errors;
      }
    }
    return Render(ProfilePage, Context(None, None, None, Some(DeviceConfirmed(devices, user.id)))), msgs;
  }
}
