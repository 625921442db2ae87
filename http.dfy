/** The parts of a Django request and response that the views look at or produce. */
module Http {
  import opened Wrappers

  datatype Method = Get | Post

  /** A request: its method and its POST form (field name to the submitted text). */
  datatype Request = Request(verb: Method, form: map<string, string>)

  /** request.POST.get(name); a GET request has an empty POST form. */
  function Field(req: Request, name: string): Option<string> {
    if req.verb == Post && name in req.form then Some(req.form[name]) else None
  }

  /** Redirect targets: the two settings and the named routes the views use. */
  datatype Url =
    | LoginUrlSetting          // settings.LOGIN_URL
    | LoginRedirectUrlSetting  // settings.LOGIN_REDIRECT_URL
    | AccountsLogin
    | AccountsVerify
    | AccountsVerifyTotp
    | AccountsDashboard
    | AccountsProfile
    | AccountsDisableTotp
    | PatientsHistory

  datatype Page =
    | LoginPage
    | VerifyPage
    | VerifyTotpPage
    | TotpSetupPage
    | ProfilePage
    | DisableTotpPage
    | NewPatientPage
    | HistoryPage

  /** The template context entries the views set; None where a view does not set one. */
  datatype Context = Context(error: Option<string>, codeSent: Option<bool>, cooldown: Option<int>, totpEnabled: Option<bool>)

  const NoContext := Context(None, None, None, None)

  function ErrorContext(message: string): Context {
    Context(Some(message), None, None, None)
  }

  datatype ExportKind = Docx | Xlsx | Pdf

  /** What a view returns; ServerError stands for an exception that escapes the view. */
  datatype Response =
    | Redirect(to: Url)
    | Render(page: Page, context: Context)
    | FileDownload(kind: ExportKind)
    | PlainText(body: string)  // an HttpResponse with a literal text body
    | ServerError

  /** A header value HttpResponse accepts: one that contains a line feed or a carriage return
      raises BadHeaderError; any other text is sent, MIME-encoded when it is not Latin-1. */
  predicate HeaderValueAllowed(v: string) {
    '\n' !in v && '\r' !in v
  }

  /** django.contrib.messages entries queued by a view. */
  datatype Message = ErrorMessage(text: string) | SuccessMessage(text: string)
}
