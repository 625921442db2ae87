/** The two_factor_required view decorator. */
module Decorators {
  import opened Http
  import opened Sessions

  /** What the wrapper sees of a request: whether Django's auth middleware found a
      logged-in user, the session contents, and the rest of the HTTP request. */
  datatype AppRequest = AppRequest(authenticated: bool, session: map<string, Value>, http: Request)

  datatype Guarded<R> = Redirected(to: Url) | Ran(result: R)

  /** two_factor_required(view)(request, *args): the view runs, on its own arguments,
      only for a logged-in user whose session carries a truthy is_2fa_verified. Login is
      checked first, so a request without a user always goes to LOGIN_URL. */
  function TwoFactorRequired<A, R>(view: (AppRequest, A) -> R, req: AppRequest, args: A): (r: Guarded<R>)
    ensures !req.authenticated ==> r == Redirected(LoginUrlSetting)
    ensures req.authenticated && !Truthy(Lookup(req.session, IS_2FA_VERIFIED)) ==> r == Redirected(AccountsVerify)
    ensures r.Ran? <==> req.authenticated && Truthy(Lookup(req.session, IS_2FA_VERIFIED))
    ensures r.Ran? ==> r.result == view(req, args)
  {
    if !req.authenticated then Redirected(LoginUrlSetting)
    else if !Truthy(Lookup(req.session, IS_2FA_VERIFIED)) then Redirected(AccountsVerify)
    else Ran(view(req, args))
  }
}
