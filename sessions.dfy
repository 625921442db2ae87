/** The Django session as the accounts views use it: a key-to-value dictionary
    that the views flush, write and pop in place. */
module Sessions {
  import opened Wrappers
  import PyText

  /** The kinds of value the views store in the session. */
  datatype Value = IntV(i: int) | BoolV(b: bool) | StrV(s: string)

  const PRE_2FA_USER_ID := "pre_2fa_user_id"
  const PRE_TOTP_USER_ID := "pre_totp_user_id"
  const CODE_HASH := "2fa_code_hash"
  const CREATED_AT := "2fa_created_at"
  const IS_2FA_VERIFIED := "is_2fa_verified"
  /** The keys under which django.contrib.auth keeps the logged-in user's id (as text), the
      dotted path of the backend that authenticated them, and their session auth hash. */
  const AUTH_USER_ID := "_auth_user_id"
  const AUTH_BACKEND := "_auth_user_backend"
  const AUTH_HASH := "_auth_user_hash"
  const AUTH_KEYS := {AUTH_USER_ID, AUTH_BACKEND, AUTH_HASH}

  /** The backend both verification views name when they log a user in. */
  const MODEL_BACKEND := "django.contrib.auth.backends.ModelBackend"

  /** session.get(key); None when the key is absent. */
  function Lookup(data: map<string, Value>, key: string): Option<Value> {
    if key in data then Some(data[key]) else None
  }

  /** Python truthiness of a session.get() result. */
  predicate Truthy(v: Option<Value>) {
    match v
    case None => false
    case Some(IntV(i)) => i != 0
    case Some(BoolV(b)) => b
    case Some(StrV(s)) => s != ""
  }

  /** Every key the two-factor views write holds the kind of value they write there. */
  predicate WellTyped(data: map<string, Value>) {
    && (PRE_2FA_USER_ID in data ==> data[PRE_2FA_USER_ID].IntV?)
    && (PRE_TOTP_USER_ID in data ==> data[PRE_TOTP_USER_ID].IntV?)
    && (CODE_HASH in data ==> data[CODE_HASH].StrV?)
    && (CREATED_AT in data ==> data[CREATED_AT].IntV?)
    && (IS_2FA_VERIFIED in data ==> data[IS_2FA_VERIFIED].BoolV?)
  }

  /** Whether django.contrib.auth.login keeps the session's data rather than flushing it:
      no user is recorded yet, or the recorded one is this user and, when the user's session
      auth hash is non-empty, the recorded hash equals it. The recorded id is compared as the
      text login wrote. */
  predicate KeepsSession(data: map<string, Value>, uid: int, authHash: string) {
    AUTH_USER_ID in data ==>
      && data[AUTH_USER_ID] == StrV(PyText.IntToString(uid))
      && (authHash == "" || Lookup(data, AUTH_HASH) == Some(StrV(authHash)))
  }

  /** The session after django.contrib.auth.login(request, user, backend): a session that
      belongs to another user, or to this user under a stale auth hash, is flushed; then the
      user's id, the backend and the auth hash are recorded. */
  function LoggedIn(data: map<string, Value>, uid: int, backend: string, authHash: string): (r: map<string, Value>)
    ensures WellTyped(data) ==> WellTyped(r)
    ensures r.Keys == (if KeepsSession(data, uid, authHash) then data.Keys else {}) + AUTH_KEYS
    ensures r[AUTH_USER_ID] == StrV(PyText.IntToString(uid))
    ensures r[AUTH_BACKEND] == StrV(backend) && r[AUTH_HASH] == StrV(authHash)
    ensures KeepsSession(data, uid, authHash) ==> forall k :: k in data && k !in AUTH_KEYS ==> r[k] == data[k]
  {
    var kept := if KeepsSession(data, uid, authHash) then data else map[];
    kept[AUTH_USER_ID := StrV(PyText.IntToString(uid))][AUTH_BACKEND := StrV(backend)][AUTH_HASH := StrV(authHash)]
  }

  /** Logging the same user in again keeps the session exactly as the first login left it. */
  lemma LoginIsIdempotent(data: map<string, Value>, uid: int, backend: string, authHash: string)
    ensures LoggedIn(LoggedIn(data, uid, backend, authHash), uid, backend, authHash) == LoggedIn(data, uid, backend, authHash)
  {
    var once := LoggedIn(data, uid, backend, authHash);
    assert KeepsSession(once, uid, authHash);
  }

  class Session {
    var data: map<string, Value>

    ghost predicate Valid()
      reads this
    {
      WellTyped(data)
    }

    constructor ()
      ensures Valid() && data == map[]
    {
      data := map[];
    }

    function Get(key: string): Option<Value>
      reads this
    {
      Lookup(data, key)
    }

    /** session.flush() */
    method Flush()
      modifies this
      ensures data == map[]
    {
      data := map[];
    }

    /** session[key] = v */
    method Set(key: string, v: Value)
      modifies this
      ensures data == old(data)[key := v]
    {
      data := data[key := v];
    }

    /** session.pop(key, None) */
    method Pop(key: string)
      modifies this
      ensures data == old(data) - {key}
    {
      data := data - {key};
    }

    /** The session side of django.contrib.auth.login, in its order: the flush test, then
        the three writes. Rotating the session key when no user is recorded yet changes no
        data and is not modelled. */
    method Login(uid: int, backend: string, authHash: string)
      modifies this
      ensures data == LoggedIn(old(data), uid, backend, authHash)
    {
      var id := StrV(PyText.IntToString(uid));
      if AUTH_USER_ID in data {
        if data[AUTH_USER_ID] != id || (authHash != "" && Get(AUTH_HASH) != Some(StrV(authHash))) {
          Flush();
        }
      }
      Set(AUTH_USER_ID, id);
      Set(AUTH_BACKEND, StrV(backend));
      Set(AUTH_HASH, StrV(authHash));
    }
  }
}
