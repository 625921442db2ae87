/** The views of the patients app: reading the new-patient form, the creation sequence inside
    one transaction with its export dispatch, the doctor's patient list, and the cascading delete.
    The database is a class over the four tables; every view either commits its inserts or, when
    an exception escapes the transaction, leaves the tables exactly as they were. */
module PatientViews {
  import opened Wrappers
  import opened Http
  import opened PatientModels
  import PyText
  import Sorting
  import Reports

  // ----------------------------------------------------------------- form reading

  /** to_int(val, default): int(val) when val is truthy and not only whitespace; the default
      when it is falsy, blank, or int() raises. */
  function ToInt(val: Option<string>, default: int): int {
    if val.Some? && |val.value| > 0 && !PyText.AllSpace(val.value) then
      match PyText.ParseInt(val.value)
      case Some(n) => n
      case None => default
    else default
  }

  /** The blank-text check of to_int is redundant: int() refuses exactly those texts too, so
      to_int is int() with the default taking the place of every failure. */
  lemma ToIntMeaning(val: Option<string>, default: int)
    ensures ToInt(val, default) == if val.Some? && PyText.ParseInt(val.value).Some? then PyText.ParseInt(val.value).value else default
    ensures val.None? || val == Some("") ==> ToInt(val, default) == default
    ensures val.Some? && PyText.AllSpace(val.value) ==> ToInt(val, default) == default
  {
    if val.Some? && val.value == "" {
      assert PyText.AllSpace(val.value);
    }
  }

  /** to_int reads back what str() of an int wrote, whitespace around it allowed. */
  lemma ToIntOfIntToString(pre: string, i: int, post: string, default: int)
    requires PyText.AllSpace(pre) && PyText.AllSpace(post)
    ensures ToInt(Some(pre + PyText.IntToString(i) + post), default) == i
  {
    PyText.ParseIntOfIntToString(pre, i, post);
    ToIntMeaning(Some(pre + PyText.IntToString(i) + post), default);
  }

  /** int(text), with the ValueError it raises. */
  function IntOf(text: string): (r: Result<int, Failure>)
    ensures r.Err? ==> r.error == ValueError
    ensures r.Ok? <==> PyText.ParseInt(text).Some?
  {
    match PyText.ParseInt(text)
    case Some(n) => Ok(n)
    case None => Err(ValueError)
  }

  /** int(request.POST.get(name, 0)): 0 when the field is absent. */
  function IntField(req: Request, name: string): Result<int, Failure> {
    match Field(req, name)
    case None => Ok(0)
    case Some(text) => IntOf(text)
  }

  /** request.POST.get(name) or None, saved into a nullable IntegerField, which applies int(). */
  function OptionalIntField(req: Request, name: string): Result<Option<int>, Failure> {
    match Field(req, name)
    case None => Ok(None)
    case Some(text) =>
      if |text| == 0 then Ok(None)
      else match IntOf(text) case Ok(n) => Ok(Some(n)) case Err(e) => Err(e)
  }

  /** request.POST.get(name) saved as it is into a nullable IntegerField: an empty text is not
      None there, so int("") raises. */
  function RawIntField(req: Request, name: string): Result<Option<int>, Failure> {
    match Field(req, name)
    case None => Ok(None)
    case Some(text) => match IntOf(text) case Ok(n) => Ok(Some(n)) case Err(e) => Err(e)
  }

  /** The range of an SQLite INTEGER, which is a signed 64-bit number. */
  const INT64_MIN := -0x8000_0000_0000_0000
  const INT64_MAX := 0x7FFF_FFFF_FFFF_FFFF

  predicate FitsInt64(n: int) {
    INT64_MIN <= n <= INT64_MAX
  }

  predicate OptionFitsInt64(o: Option<int>) {
    o.Some? ==> FitsInt64(o.value)
  }

  /** An integer bound into an INSERT: the sqlite3 driver raises OverflowError for one outside
      64 bits, after every value of the row has been prepared. */
  function Stored(r: Result<int, Failure>): (s: Result<int, Failure>)
    ensures s.Ok? <==> r.Ok? && FitsInt64(r.value)
    ensures s.Ok? ==> s == r
    ensures r.Err? ==> s == r
    ensures r.Ok? && !FitsInt64(r.value) ==> s == Err(OverflowError)
  {
    match r
    case Err(e) => Err(e)
    case Ok(n) => if FitsInt64(n) then Ok(n) else Err(OverflowError)
  }

  /** The three ways of reading an integer field agree on absent fields, and differ on an empty one:
      the "or None" form stores NULL, the bare form raises. */
  lemma IntFieldReaders(req: Request, name: string)
    ensures Field(req, name).None? ==>
      IntField(req, name) == Ok(0) && OptionalIntField(req, name) == Ok(None) && RawIntField(req, name) == Ok(None)
    ensures Field(req, name) == Some("") ==>
      IntField(req, name) == Err(ValueError) && OptionalIntField(req, name) == Ok(None)
      && RawIntField(req, name) == Err(ValueError)
  {
    assert PyText.AllSpace("");
  }

  /** What the views receive from outside: the clock, Django's parse_datetime (None for text
      that does not look like a date, ValueError for an impossible one), Python's float() (None
      where it raises), the ejection-fraction computation and whether xhtml2pdf reports an error. */
  datatype Env = Env(
    now: DateTime,
    parseDatetime: string -> Result<Option<DateTime>, Failure>,
    parseFloat: string -> Option<Float>,
    ef: (Float, Float) -> Reports.PyValue,
    pdfRenders: bool)

  /** full_name is NOT NULL: a form without the field makes the insert fail. */
  function FullName(req: Request): (r: Result<string, Failure>)
    ensures r.Err? <==> Field(req, "full_name").None?
    ensures r.Err? ==> r.error == IntegrityError
  {
    match Field(req, "full_name")
    case None => Err(IntegrityError)
    case Some(name) => Ok(name)
  }

  /** exam_datetime: parsed when the field is truthy, the current time otherwise. */
  function ExamDate(req: Request, env: Env): Result<Option<DateTime>, Failure> {
    var raw := Field(req, "exam_datetime");
    if raw.Some? && |raw.value| > 0 then env.parseDatetime(raw.value) else Ok(Some(env.now))
  }

  /** val.replace(',', '.'): a decimal comma is read as a decimal point. */
  function CommaToDot(text: string): string {
    seq(|text|, i requires 0 <= i < |text| => if text[i] == ',' then '.' else text[i])
  }

  /** The replacement keeps the length and every other character, and leaves no comma. */
  lemma CommaToDotMeaning(text: string)
    ensures |CommaToDot(text)| == |text| && ',' !in CommaToDot(text)
    ensures forall i :: 0 <= i < |text| ==> CommaToDot(text)[i] == if text[i] == ',' then '.' else text[i]
  {
    var r := CommaToDot(text);
    forall i | 0 <= i < |r| ensures r[i] != ',' {
    }
  }

  /** Replacing a second time changes nothing. */
  lemma CommaToDotIdempotent(text: string)
    ensures CommaToDot(CommaToDot(text)) == CommaToDot(text)
  {
    var once := CommaToDot(text);
    CommaToDotMeaning(once);
    CommaToDotMeaning(text);
    assert forall i :: 0 <= i < |once| ==> CommaToDot(once)[i] == once[i];
  }

  /** to_float(val): None for a falsy value or a text float() refuses. */
  function ToFloat(val: Option<string>, env: Env): Option<Float> {
    if val.None? || |val.value| == 0 then None else env.parseFloat(CommaToDot(val.value))
  }

  /** A value written with a decimal comma reads as the same value written with a point, and
      an absent or empty field reads as NULL whatever float() does. */
  lemma ToFloatAcceptsCommas(text: string, env: Env)
    ensures ToFloat(Some(text), env) == ToFloat(Some(CommaToDot(text)), env)
    ensures ToFloat(None, env).None? && ToFloat(Some(""), env).None?
  {
    CommaToDotIdempotent(text);
  }

  function FloatField(req: Request, env: Env, name: string): Option<Float> {
    ToFloat(Field(req, name), env)
  }

  /** The Examination row's columns as the insert prepares them, then binds them: an age or
      heart rate outside 64 bits makes the insert raise OverflowError. */
  function ReadExam(req: Request, env: Env): (r: Result<ExamFields, Failure>)
    ensures r.Ok? ==> OptionFitsInt64(r.value.age) && OptionFitsInt64(r.value.hr)
  {
    match ExamDate(req, env)
    case Err(e) => Err(e)
    case Ok(date) =>
      match OptionalIntField(req, "age")
      case Err(e) => Err(e)
      case Ok(age) =>
        match OptionalIntField(req, "hr")
        case Err(e) => Err(e)
        case Ok(hr) =>
          if !OptionFitsInt64(age) || !OptionFitsInt64(hr) then Err(OverflowError)
          else
            Ok(ExamFields(date, age, FloatField(req, env, "height"), FloatField(req, env, "weight"),
                          FloatField(req, env, "bmi"), FloatField(req, env, "bsa"), hr))
  }

  /** An age that int() reads but that does not fit 64 bits fails the examination's insert,
      whatever the other fields hold. */
  lemma WideAgeOverflows(req: Request, env: Env, text: string)
    requires ExamDate(req, env).Ok? && OptionalIntField(req, "hr").Ok?
    requires Field(req, "age") == Some(text) && PyText.ParseInt(text).Some? && !FitsInt64(PyText.ParseInt(text).value)
    ensures ReadExam(req, env) == Err(OverflowError)
  {
  }

  function AortaRow(req: Request, env: Env): Aorta {
    Aorta(FloatField(req, env, "diametr_aorta"), FloatField(req, env, "opening_aortic_valve"),
          Field(req, "aorta_enabled") == Some("on"))
  }

  function AorticValveRow(req: Request, env: Env, reg: int): AorticValve {
    AorticValve(FloatField(req, env, "psk"), FloatField(req, env, "max_gradient"),
                FloatField(req, env, "avr_gradient"), reg, FloatField(req, env, "ploshad_open_clapana"), true)
  }

  function LeftVentricleRow(req: Request, env: Env, hr: Option<int>): LeftVentricle {
    LeftVentricle(FloatField(req, env, "mjp"), FloatField(req, env, "kdr"), FloatField(req, env, "kcr"),
                  FloatField(req, env, "zclj"), FloatField(req, env, "kdo"), FloatField(req, env, "kco"), hr, true)
  }

  function OtherChambersRow(req: Request, env: Env): OtherChambers {
    OtherChambers(FloatField(req, env, "left_pred"), FloatField(req, env, "right_pred"),
                  FloatField(req, env, "right_jel"), FloatField(req, env, "obem_lp"), true)
  }

  function MitralValveRow(req: Request, env: Env, reg: int): MitralValve {
    MitralValve(FloatField(req, env, "e"), FloatField(req, env, "a"), FloatField(req, env, "max_gradient"),
                FloatField(req, env, "dte"), FloatField(req, env, "ivrt"), reg, true)
  }

  function TricuspidValveRow(req: Request, env: Env, reg: int): TricuspidValve {
    TricuspidValve(FloatField(req, env, "trikuspid_e"), FloatField(req, env, "trikuspid_a"),
                   FloatField(req, env, "trikuspid_max_gradiend"), FloatField(req, env, "tapse"), reg, true)
  }

  function PulmonaryArteryRow(req: Request, env: Env, reg: int): PulmonaryArtery {
    PulmonaryArtery(FloatField(req, env, "diametr_stvola_la"), FloatField(req, env, "max_gradient"),
                    FloatField(req, env, "speed"), FloatField(req, env, "at"), FloatField(req, env, "et"), reg,
                    FloatField(req, env, "npv"), true)
  }

  /** The seven panel rows, created in this order, each integer read and then bound by its own
      row's insert. Only the aorta's is_enabled comes from the form (a checkbox is "on" when
      ticked); the others keep the default True. */
  function ReadPanels(req: Request, env: Env): Result<Panels, Failure> {
    match Stored(IntField(req, "regurgitaciya_1"))
    case Err(e) => Err(e)
    case Ok(reg1) =>
      match RawIntField(req, "hr")
      case Err(e) => Err(e)
      case Ok(lvHr) =>
        if !OptionFitsInt64(lvHr) then Err(OverflowError) else
        match Stored(IntField(req, "regurgitaciya_2"))
        case Err(e) => Err(e)
        case Ok(reg2) =>
          match Stored(IntField(req, "regurgitaciya_3"))
          case Err(e) => Err(e)
          case Ok(reg3) =>
            match Stored(IntField(req, "regurgitaciya_4"))
            case Err(e) => Err(e)
            case Ok(reg4) =>
              Ok(Panels(Some(AortaRow(req, env)), Some(AorticValveRow(req, env, reg1)),
                        Some(LeftVentricleRow(req, env, lvHr)), Some(OtherChambersRow(req, env)),
                        Some(MitralValveRow(req, env, reg2)), Some(TricuspidValveRow(req, env, reg3)),
                        Some(PulmonaryArteryRow(req, env, reg4))))
  }

  /** The aorta is shown in the reports exactly when its checkbox was ticked. */
  lemma AortaEnabledIffTicked(req: Request, env: Env)
    requires ReadPanels(req, env).Ok?
    ensures var p := ReadPanels(req, env).value;
      p.aorta.Some? && (p.aorta.value.isEnabled <==> Field(req, "aorta_enabled") == Some("on"))
    ensures var p := ReadPanels(req, env).value;
      p.aorticValve.Some? && p.aorticValve.value.isEnabled && p.leftVentricle.Some? && p.leftVentricle.value.isEnabled
  {
  }

  /** The number of segments of the myocardial map. */
  const SEGMENT_COUNT := 17

  function SegmentFieldName(i: nat): string {
    "segment_" + PyText.NatToString(i)
  }

  /** int(request.POST.get(f"segment_{i}", 0)), stored into a PositiveSmallIntegerField: the
      driver refuses a value outside 64 bits before the CHECK constraint refuses a negative one. */
  function SegmentState(req: Request, i: nat): (r: Result<int, Failure>)
    ensures r.Ok? <==> IntField(req, SegmentFieldName(i)).Ok? && 0 <= IntField(req, SegmentFieldName(i)).value <= INT64_MAX
    ensures r.Ok? ==> r == IntField(req, SegmentFieldName(i))
    ensures r.Err? && IntField(req, SegmentFieldName(i)).Ok? ==>
      r.error == if IntField(req, SegmentFieldName(i)).value < INT64_MIN || IntField(req, SegmentFieldName(i)).value > INT64_MAX then OverflowError else IntegrityError
    ensures Field(req, SegmentFieldName(i)).None? ==> r == Ok(0)
  {
    match Stored(IntField(req, SegmentFieldName(i)))
    case Err(e) => Err(e)
    case Ok(n) => if n < 0 then Err(IntegrityError) else Ok(n)
  }

  /** read(1), ..., read(n) in turn, stopping at the first failure. */
  function ReadAll(read: nat -> Result<int, Failure>, n: nat): (r: Result<seq<int>, Failure>)
    ensures r.Ok? ==> |r.value| == n
  {
    if n == 0 then Ok([])
    else
      match ReadAll(read, n - 1)
      case Err(e) => Err(e)
      case Ok(values) =>
        match read(n)
        case Err(e) => Err(e)
        case Ok(x) => Ok(values + [x])
  }

  /** Value k is what read(k + 1) gave, and reading 1..n fails exactly when one read fails. */
  lemma {:induction false} ReadAllMeaning(read: nat -> Result<int, Failure>, n: nat)
    ensures ReadAll(read, n).Ok? ==> forall k :: 0 <= k < n ==> read(k + 1) == Ok(ReadAll(read, n).value[k])
    ensures ReadAll(read, n).Err? <==> exists k :: 1 <= k <= n && read(k).Err?
  {
    if n > 0 {
      ReadAllMeaning(read, n - 1);
    }
  }

  /** The states of segments 1..n, or the first failure among them. */
  function SegmentStates(req: Request, n: nat): (r: Result<seq<int>, Failure>)
    ensures r.Ok? ==> |r.value| == n
  {
    if n == 0 then Ok([])
    else
      match SegmentStates(req, n - 1)
      case Err(e) => Err(e)
      case Ok(states) =>
        match SegmentState(req, n)
        case Err(e) => Err(e)
        case Ok(x) => Ok(states + [x])
  }

  /** Reading the segments is reading each of them in turn. */
  lemma {:induction false} SegmentStatesReadAll(req: Request, n: nat)
    ensures SegmentStates(req, n) == ReadAll((k: nat) => SegmentState(req, k), n)
  {
    if n > 0 {
      SegmentStatesReadAll(req, n - 1);
    }
  }

  /** Each state read is the state of its segment, and reading fails exactly when one segment's does. */
  lemma SegmentStatesMeaning(req: Request, n: nat)
    ensures SegmentStates(req, n).Ok? ==> forall k :: 0 <= k < n ==> SegmentState(req, k + 1) == Ok(SegmentStates(req, n).value[k])
    ensures SegmentStates(req, n).Err? <==> exists k :: 1 <= k <= n && SegmentState(req, k).Err?
  {
    var read := (k: nat) => SegmentState(req, k);
    SegmentStatesReadAll(req, n);
    ReadAllMeaning(read, n);
    assert forall k: nat :: read(k) == SegmentState(req, k);
  }

  /** A segment state that reads is never negative: the CHECK constraint refuses the rest. */
  lemma SegmentStatesNonNegative(req: Request, n: nat)
    ensures SegmentStates(req, n).Ok? ==> forall k :: 0 <= k < n ==> SegmentStates(req, n).value[k] >= 0
  {
    SegmentStatesMeaning(req, n);
    if SegmentStates(req, n).Ok? {
      forall k | 0 <= k < n ensures SegmentStates(req, n).value[k] >= 0 {
        assert SegmentState(req, k + 1) == Ok(SegmentStates(req, n).value[k]);
      }
    }
  }

  /** The segment rows of one examination, numbered from 1 in order. */
  function SegmentRows(exam: Id, states: seq<int>): (rows: seq<Segment>)
    ensures |rows| == |states|
    ensures forall k :: 0 <= k < |states| ==> rows[k] == Segment(exam, k + 1, states[k])
  {
    seq(|states|, k requires 0 <= k < |states| => Segment(exam, k + 1, states[k]))
  }

  lemma SegmentRowsSnoc(exam: Id, states: seq<int>, x: int)
    ensures SegmentRows(exam, states + [x]) == SegmentRows(exam, states) + [Segment(exam, |states| + 1, x)]
  {
    var a := SegmentRows(exam, states + [x]);
    var b := SegmentRows(exam, states) + [Segment(exam, |states| + 1, x)];
    assert |a| == |b|;
    forall k | 0 <= k < |a| ensures a[k] == b[k] {
      if k < |states| {
        assert (states + [x])[k] == states[k];
      }
    }
  }

  // ------------------------------------------------------------- creation sequence

  /** The tables after the inserts, and the new patient and examination. */
  datatype Created = Created(tables: Tables, patient: Patient, exam: Examination)

  /** What the inserts take from the form: the name, the examination's columns, the seven
      panels and the seventeen segment states. */
  datatype Form = Form(fullName: string, fields: ExamFields, panels: Panels, states: seq<int>)

  /** The values new_patient_view reads, in the order it reads them, or the first exception. */
  function ReadForm(req: Request, env: Env): Result<Form, Failure> {
    match FullName(req)
    case Err(e) => Err(e)
    case Ok(name) =>
      match ReadExam(req, env)
      case Err(e) => Err(e)
      case Ok(fields) =>
        match ReadPanels(req, env)
        case Err(e) => Err(e)
        case Ok(panels) =>
          match SegmentStates(req, SEGMENT_COUNT)
          case Err(e) => Err(e)
          case Ok(states) => Ok(Form(name, fields, panels, states))
  }

  /** A form that reads holds the submitted name and seventeen non-negative states, one per
      segment field. */
  lemma ReadFormStates(req: Request, env: Env)
    requires ReadForm(req, env).Ok?
    ensures var f := ReadForm(req, env).value;
      && Field(req, "full_name") == Some(f.fullName)
      && f.panels == ReadPanels(req, env).value
      && f.states == SegmentStates(req, SEGMENT_COUNT).value
      && |f.states| == SEGMENT_COUNT
  {
  }

  /** A form reads when each of its parts does. */
  lemma ReadFormOk(req: Request, env: Env)
    requires FullName(req).Ok? && ReadExam(req, env).Ok? && ReadPanels(req, env).Ok?
    requires SegmentStates(req, SEGMENT_COUNT).Ok?
    ensures ReadForm(req, env) == Ok(Form(FullName(req).value, ReadExam(req, env).value, ReadPanels(req, env).value,
                                          SegmentStates(req, SEGMENT_COUNT).value))
  {
  }

  /** The rows the view inserts: the patient, the examination, the panels and the segments. */
  function AddRows(t: Tables, owner: UserId, f: Form): Created {
    var p := Patient(t.nextPatientId, owner, f.fullName);
    var x := Examination(t.nextExamId, p.id, f.fields);
    Created(Tables(t.patients + [p], t.exams + [x], t.panels[x.id := f.panels],
                   t.segments + SegmentRows(x.id, f.states), t.nextPatientId + 1, t.nextExamId + 1), p, x)
  }

  /** The inserts of new_patient_view inside one transaction: any exception aborts them all. */
  function Create(t: Tables, owner: UserId, req: Request, env: Env): Result<Created, Failure> {
    match ReadForm(req, env)
    case Err(e) => Err(e)
    case Ok(f) => Ok(AddRows(t, owner, f))
  }

  /** exam.segments.all(): the segment rows that point at the examination. */
  function SegmentsOf(t: Tables, exam: Id): seq<Segment> {
    Sorting.Filter(t.segments, (s: Segment) => s.exam == exam)
  }

  /** What the exporters read after exam.refresh_from_db(). */
  function ReportOf(t: Tables, p: Patient, x: Examination): Reports.ExamReport {
    Reports.ExamReport(p.fullName, x.fields,
                       if x.id in t.panels then t.panels[x.id] else Panels(None, None, None, None, None, None, None),
                       SegmentsOf(t, x.id))
  }

  const PDF_ERROR := "Ошибка PDF"

  /** Whether the download header of a protocol with this name can be set. */
  predicate HeaderAccepts(name: string, ext: string) {
    HeaderValueAllowed(Reports.AttachmentHeader(name, ext))
  }

  /** The export dispatch at the end of the transaction. Each generator builds its protocol
      (Reports.DocxFailure, Reports.XlsxFailure say when that raises), then sets the download
      header, which raises BadHeaderError for a name with a line break; any exception escapes
      the transaction, so the inserts are rolled back. A PDF that xhtml2pdf reports as failed
      is answered with a text and commits. An unknown export type commits and goes to the
      dashboard. */
  function Export(t: Tables, c: Created, req: Request, env: Env): (Tables, Response) {
    var kind := Field(req, "export_type");
    var report := ReportOf(c.tables, c.patient, c.exam);
    if kind == Some("docx") then
      if Reports.DocxContent(report, env.ef).Err? || !HeaderAccepts(report.fullName, "docx") then (t, ServerError)
      else (c.tables, FileDownload(Docx))
    else if kind == Some("xlsx") then
      if Reports.XlsxContent(report, env.ef).Err? || !HeaderAccepts(report.fullName, "xlsx") then (t, ServerError)
      else (c.tables, FileDownload(Xlsx))
    else if kind == Some("pdf") then
      if !env.pdfRenders then (c.tables, PlainText(PDF_ERROR))
      else if !HeaderAccepts(report.fullName, "pdf") then (t, ServerError)
      else (c.tables, FileDownload(Pdf))
    else (c.tables, Redirect(AccountsDashboard))
  }

  /** new_patient_view for the logged-in user (None: login_required redirects to the login page). */
  function NewPatientStep(t: Tables, user: Option<UserId>, req: Request, env: Env): (Tables, Response) {
    if user.None? then (t, Redirect(LoginUrlSetting))
    else if req.verb != Post then (t, Render(NewPatientPage, NoContext))
    else
      match Create(t, user.value, req, env)
      case Err(_) => (t, ServerError)
      case Ok(c) => Export(t, c, req, env)
  }

  /** The database: the four tables and the next key of each auto-increment column. */
  class Database {
    var patients: seq<Patient>
    var exams: seq<Examination>
    var panels: map<Id, Panels>
    var segments: seq<Segment>
    var nextPatientId: Id
    var nextExamId: Id

    function State(): Tables
      reads this
    {
      Tables(patients, exams, panels, segments, nextPatientId, nextExamId)
    }

    constructor (t: Tables)
      ensures State() == t
    {
      patients, exams, panels, segments := t.patients, t.exams, t.panels, t.segments;
      nextPatientId, nextExamId := t.nextPatientId, t.nextExamId;
    }

    /** Patient.objects.create(user=owner, full_name=name) */
    method CreatePatient(owner: UserId, name: string) returns (p: Patient)
      modifies this
      ensures p == Patient(old(nextPatientId), owner, name)
      ensures State() == old(State()).(patients := old(patients) + [p], nextPatientId := old(nextPatientId) + 1)
    {
      p := Patient(nextPatientId, owner, name);
      patients := patients + [p];
      nextPatientId := nextPatientId + 1;
    }

    /** Examination.objects.create(patient=patient, ...) */
    method CreateExam(patient: Id, fields: ExamFields) returns (x: Examination)
      modifies this
      ensures x == Examination(old(nextExamId), patient, fields)
      ensures State() == old(State()).(exams := old(exams) + [x], nextExamId := old(nextExamId) + 1)
    {
      x := Examination(nextExamId, patient, fields);
      exams := exams + [x];
      nextExamId := nextExamId + 1;
    }

    /** The seven OneToOne panel rows of one examination. */
    method CreatePanels(exam: Id, p: Panels)
      modifies this
      ensures State() == old(State()).(panels := old(panels)[exam := p])
    {
      panels := panels[exam := p];
    }

    /** MyocardialSegment.objects.create(examination=exam, segment_number=number, state=state) */
    method CreateSegment(exam: Id, number: int, state: int)
      modifies this
      ensures State() == old(State()).(segments := old(segments) + [Segment(exam, number, state)])
    {
      segments := segments + [Segment(exam, number, state)];
    }

    /** The rollback of transaction.atomic when an exception leaves the block. */
    method Restore(t: Tables)
      modifies this
      ensures State() == t
    {
      patients, exams, panels, segments := t.patients, t.exams, t.panels, t.segments;
      nextPatientId, nextExamId := t.nextPatientId, t.nextExamId;
    }

    /** patient.delete(), with the cascade the foreign keys declare. */
    method DeletePatient(id: Id)
      modifies this
      ensures State() == Cascade(old(State()), id)
    {
      var t := Cascade(State(), id);
      patients, exams, panels, segments := t.patients, t.exams, t.panels, t.segments;
    }
  }

  /** The segment loop: segments 1..17, each read and inserted in turn. */
  method CreateSegments(db: Database, exam: Id, req: Request) returns (ok: bool)
    modifies db
    ensures ok <==> SegmentStates(req, SEGMENT_COUNT).Ok?
    ensures ok ==> db.State() == old(db.State()).(segments := old(db.segments) + SegmentRows(exam, SegmentStates(req, SEGMENT_COUNT).value))
  {
    ghost var start := db.State();
    var i := 1;
    while i <= SEGMENT_COUNT
      invariant 1 <= i <= SEGMENT_COUNT + 1
      invariant SegmentStates(req, i - 1).Ok?
      invariant db.State() == start.(segments := start.segments + SegmentRows(exam, SegmentStates(req, i - 1).value))
    {
      ghost var before := SegmentStates(req, i - 1).value;
      var state := SegmentState(req, i);
      if state.Err? {
        SegmentStatesMeaning(req, SEGMENT_COUNT);
        return false;
      }
      db.CreateSegment(exam, i, state.value);
      SegmentRowsSnoc(exam, before, state.value);
      i := i + 1;
    }
    return true;
  }

  /** The inserts in the order the view makes them, each read just before its insert; on an
      exception the transaction is rolled back. */
  method InsertAll(db: Database, owner: UserId, req: Request, env: Env) returns (c: Result<Created, Failure>)
    modifies db
    ensures c == Create(old(db.State()), owner, req, env)
    ensures db.State() == if c.Ok? then c.value.tables else old(db.State())
  {
    var snapshot := db.State();
    var name := FullName(req);
    if name.Err? {
      return Err(name.error);
    }
    var p := db.CreatePatient(owner, name.value);
    var fields := ReadExam(req, env);
    if fields.Err? {
      db.Restore(snapshot);
      return Err(fields.error);
    }
    var x := db.CreateExam(p.id, fields.value);
    var panels := ReadPanels(req, env);
    if panels.Err? {
      db.Restore(snapshot);
      return Err(panels.error);
    }
    db.CreatePanels(x.id, panels.value);
    var ok := CreateSegments(db, x.id, req);
    if !ok {
      db.Restore(snapshot);
      return Err(SegmentStates(req, SEGMENT_COUNT).error);
    }
    ReadFormOk(req, env);
    ghost var form := ReadForm(req, env).value;
    ghost var added := AddRows(snapshot, owner, form);
    assert Create(snapshot, owner, req, env) == Ok(added);
    assert p == added.patient && x == added.exam;
    assert db.State() == added.tables;
    c := Ok(Created(db.State(), p, x));
  }

  /** new_patient_view: the tables and the response are those NewPatientStep describes. */
  method NewPatientView(db: Database, user: Option<UserId>, req: Request, env: Env) returns (resp: Response)
    modifies db
    ensures (db.State(), resp) == NewPatientStep(old(db.State()), user, req, env)
  {
    if user.None? {
      return Redirect(LoginUrlSetting);
    }
    if req.verb != Post {
      return Render(NewPatientPage, NoContext);
    }
    var snapshot := db.State();
    var c := InsertAll(db, user.value, req, env);
    if c.Err? {
      return ServerError;
    }
    var kind := Field(req, "export_type");
    var report := ReportOf(db.State(), c.value.patient, c.value.exam);
    if kind == Some("docx") {
      var doc := Reports.GenerateDocx(report, env.ef);
      if doc.Err? || !HeaderValueAllowed(Reports.AttachmentHeader(report.fullName, "docx")) {
        db.Restore(snapshot);
        return ServerError;
      }
      return FileDownload(Docx);
    } else if kind == Some("xlsx") {
      var sheet := Reports.GenerateXlsx(report, env.ef);
      if sheet.Err? || !HeaderValueAllowed(Reports.AttachmentHeader(report.fullName, "xlsx")) {
        db.Restore(snapshot);
        return ServerError;
      }
      return FileDownload(Xlsx);
    } else if kind == Some("pdf") {
      if env.pdfRenders {
        if !HeaderValueAllowed(Reports.AttachmentHeader(report.fullName, "pdf")) {
          db.Restore(snapshot);
          return ServerError;
        }
        return FileDownload(Pdf);
      }
      return PlainText(PDF_ERROR);
    }
    return Redirect(AccountsDashboard);
  }

  // ------------------------------------------------------- properties of creation

  /** A GET, or a request without a logged-in user, changes no table. */
  lemma NewPatientOnlyOnPost(t: Tables, user: Option<UserId>, req: Request, env: Env)
    requires user.None? || req.verb != Post
    ensures NewPatientStep(t, user, req, env).0 == t
    ensures NewPatientStep(t, user, req, env).1 == if user.None? then Redirect(LoginUrlSetting) else Render(NewPatientPage, NoContext)
  {
  }

  /** The export step fails only by rolling the inserts back. */
  lemma ExportFailureRollsBack(t: Tables, c: Created, req: Request, env: Env)
    ensures Export(t, c, req, env).1 == ServerError ==> Export(t, c, req, env).0 == t
    ensures Export(t, c, req, env).1 != ServerError ==> Export(t, c, req, env).0 == c.tables
  {
  }

  /** Every failure is a server error that leaves the tables as they were, and a server error
      happens only when an insert fails or the Word summary meets an unknown state. */
  lemma NewPatientFailureRollsBack(t: Tables, user: Option<UserId>, req: Request, env: Env)
    ensures var (t', resp) := NewPatientStep(t, user, req, env);
      resp == ServerError ==> t' == t
    ensures var (t', resp) := NewPatientStep(t, user, req, env);
      user.Some? && req.verb == Post && Create(t, user.value, req, env).Err? ==> resp == ServerError
    ensures var (t', resp) := NewPatientStep(t, user, req, env);
      resp != ServerError && user.Some? && req.verb == Post ==> t' == Create(t, user.value, req, env).value.tables
  {
    if user.Some? && req.verb == Post {
      var created := Create(t, user.value, req, env);
      if created.Ok? {
        ExportFailureRollsBack(t, created.value, req, env);
        assert NewPatientStep(t, user, req, env) == Export(t, created.value, req, env);
      }
    }
  }

  /** A successful creation adds exactly one patient, owned by the requesting user, with the
      submitted name, and one examination of that patient. */
  lemma CreateAddsOnePatient(t: Tables, owner: UserId, req: Request, env: Env)
    requires Create(t, owner, req, env).Ok?
    ensures var c := Create(t, owner, req, env).value;
      && c.tables.patients == t.patients + [c.patient]
      && c.patient.owner == owner && Field(req, "full_name") == Some(c.patient.fullName)
      && c.tables.exams == t.exams + [c.exam] && c.exam.patient == c.patient.id
  {
    ReadFormStates(req, env);
  }

  /** A successful creation adds exactly seventeen segments of the new examination, numbered
      1..17 in order, each with the state of its form field or 0 when the field is absent. */
  lemma CreateAddsSeventeenSegments(t: Tables, owner: UserId, req: Request, env: Env)
    requires Create(t, owner, req, env).Ok?
    ensures var c := Create(t, owner, req, env).value;
      var added := c.tables.segments[|t.segments|..];
      && c.tables.segments[..|t.segments|] == t.segments
      && |added| == SEGMENT_COUNT
      && forall k :: 0 <= k < SEGMENT_COUNT ==>
           added[k].exam == c.exam.id && added[k].number == k + 1
           && Ok(added[k].state) == SegmentState(req, k + 1)
           && (Field(req, SegmentFieldName(k + 1)).None? ==> added[k].state == 0)
  {
    ReadFormStates(req, env);
    var c := Create(t, owner, req, env).value;
    var states := SegmentStates(req, SEGMENT_COUNT).value;
    var added := c.tables.segments[|t.segments|..];
    assert added == SegmentRows(c.exam.id, states);
    SegmentStatesMeaning(req, SEGMENT_COUNT);
    forall k | 0 <= k < SEGMENT_COUNT
      ensures added[k].exam == c.exam.id && added[k].number == k + 1
      ensures Ok(added[k].state) == SegmentState(req, k + 1)
      ensures Field(req, SegmentFieldName(k + 1)).None? ==> added[k].state == 0
    {
      assert added[k] == Segment(c.exam.id, k + 1, states[k]);
    }
  }

  /** A file is sent back only for the three export types; any other value commits the
      inserts and redirects to the dashboard. The Excel file and the PDF (once xhtml2pdf has
      rendered it) are sent exactly when the name passes the cell check and the header check;
      otherwise the inserts are rolled back. A name with a line break never gets a file. */
  lemma ExportDispatch(t: Tables, c: Created, req: Request, env: Env)
    ensures var (t', resp) := Export(t, c, req, env);
      resp.FileDownload? ==> Field(req, "export_type") in {Some("docx"), Some("xlsx"), Some("pdf")}
    ensures var (t', resp) := Export(t, c, req, env);
      Field(req, "export_type") !in {Some("docx"), Some("xlsx"), Some("pdf")} ==> t' == c.tables && resp == Redirect(AccountsDashboard)
    ensures var (t', resp) := Export(t, c, req, env);
      Field(req, "export_type") == Some("xlsx") ==>
        if Reports.CellAccepts(c.patient.fullName) && HeaderValueAllowed(c.patient.fullName)
        then t' == c.tables && resp == FileDownload(Xlsx)
        else t' == t && resp == ServerError
    ensures var (t', resp) := Export(t, c, req, env);
      Field(req, "export_type") == Some("pdf") ==>
        if !env.pdfRenders then t' == c.tables && resp == PlainText(PDF_ERROR)
        else if HeaderValueAllowed(c.patient.fullName) then t' == c.tables && resp == FileDownload(Pdf)
        else t' == t && resp == ServerError
    ensures var (t', resp) := Export(t, c, req, env);
      !HeaderValueAllowed(c.patient.fullName) ==> !resp.FileDownload?
  {
    var report := ReportOf(c.tables, c.patient, c.exam);
    Reports.AttachmentHeaderAllowed(c.patient.fullName, "docx");
    Reports.AttachmentHeaderAllowed(c.patient.fullName, "xlsx");
    Reports.AttachmentHeaderAllowed(c.patient.fullName, "pdf");
  }

  lemma PatientIdsSnoc(ps: seq<Patient>, p: Patient)
    ensures PatientIds(ps + [p]) == PatientIds(ps) + {p.id}
  {
    var l := PatientIds(ps + [p]);
    forall id | id in l ensures id in PatientIds(ps) + {p.id} {
      var i :| 0 <= i < |ps + [p]| && (ps + [p])[i].id == id;
      if i < |ps| { assert ps[i].id == id; }
    }
    forall id | id in PatientIds(ps) ensures id in l {
      var i :| 0 <= i < |ps| && ps[i].id == id;
      assert (ps + [p])[i].id == id;
    }
    assert (ps + [p])[|ps|].id == p.id;
  }

  lemma ExamIdsSnoc(es: seq<Examination>, x: Examination)
    ensures ExamIds(es + [x]) == ExamIds(es) + {x.id}
  {
    var l := ExamIds(es + [x]);
    forall id | id in l ensures id in ExamIds(es) + {x.id} {
      var i :| 0 <= i < |es + [x]| && (es + [x])[i].id == id;
      if i < |es| { assert es[i].id == id; }
    }
    forall id | id in ExamIds(es) ensures id in l {
      var i :| 0 <= i < |es| && es[i].id == id;
      assert (es + [x])[i].id == id;
    }
    assert (es + [x])[|es|].id == x.id;
  }

  /** Inserting the rows of a form whose states are not negative keeps the schema's guarantees. */
  lemma AddRowsKeepsValid(t: Tables, owner: UserId, f: Form)
    requires Valid(t) && forall k :: 0 <= k < |f.states| ==> f.states[k] >= 0
    ensures Valid(AddRows(t, owner, f).tables)
  {
    var c := AddRows(t, owner, f);
    var n := c.tables;
    PatientIdsSnoc(t.patients, c.patient);
    ExamIdsSnoc(t.exams, c.exam);
    var rows := SegmentRows(c.exam.id, f.states);
    forall i | 0 <= i < |n.segments|
      ensures n.segments[i].exam in ExamIds(n.exams) && n.segments[i].number >= 0 && n.segments[i].state >= 0
    {
      if i < |t.segments| {
        assert n.segments[i] == t.segments[i];
      } else {
        assert n.segments[i] == rows[i - |t.segments|];
      }
    }
    forall i | 0 <= i < |n.exams| ensures n.exams[i].patient in PatientIds(n.patients) {
      if i < |t.exams| { assert n.exams[i] == t.exams[i]; }
    }
  }

  /** Creation keeps the schema's guarantees: fresh keys, existing foreign keys, and no negative
      segment state (the CHECK constraint is what refuses one). */
  lemma CreateKeepsValid(t: Tables, owner: UserId, req: Request, env: Env)
    requires Valid(t) && Create(t, owner, req, env).Ok?
    ensures Valid(Create(t, owner, req, env).value.tables)
  {
    ReadFormStates(req, env);
    SegmentStatesNonNegative(req, SEGMENT_COUNT);
    AddRowsKeepsValid(t, owner, ReadForm(req, env).value);
  }

  /** Under the schema's guarantees the new examination has no older segments, so it owns
      exactly the rows just inserted. */
  lemma AddRowsSegmentsOf(t: Tables, owner: UserId, f: Form)
    requires Valid(t)
    ensures var c := AddRows(t, owner, f);
      SegmentsOf(c.tables, c.exam.id) == SegmentRows(c.exam.id, f.states)
  {
    var c := AddRows(t, owner, f);
    var eid := c.exam.id;
    var rows := SegmentRows(eid, f.states);
    var keep := (s: Segment) => s.exam == eid;
    Sorting.FilterAppend(t.segments, rows, keep);
    forall i | 0 <= i < |t.segments| ensures !keep(t.segments[i]) {
      var j :| 0 <= j < |t.exams| && t.exams[j].id == t.segments[i].exam;
    }
    NothingKept(t.segments, keep);
  }

  /** The reports of a new examination read exactly the seventeen rows just inserted. */
  lemma ReportReadsNewSegments(t: Tables, owner: UserId, req: Request, env: Env)
    requires Valid(t) && Create(t, owner, req, env).Ok?
    ensures var c := Create(t, owner, req, env).value;
      SegmentsOf(c.tables, c.exam.id) == SegmentRows(c.exam.id, SegmentStates(req, SEGMENT_COUNT).value)
  {
    ReadFormStates(req, env);
    AddRowsSegmentsOf(t, owner, ReadForm(req, env).value);
  }

  lemma {:induction false} NothingKept<T>(s: seq<T>, keep: T -> bool)
    requires forall i :: 0 <= i < |s| ==> !keep(s[i])
    ensures Sorting.Filter(s, keep) == []
  {
    if s != [] {
      NothingKept(s[1..], keep);
    }
  }

  /** The Word export of a new examination fails, and the whole creation is undone, exactly
      when some submitted segment state is above 3, the submitted name holds a character XML
      cannot carry, or the name holds a line break. */
  lemma NewPatientDocxOutcome(t: Tables, owner: UserId, req: Request, env: Env)
    requires Valid(t) && Create(t, owner, req, env).Ok? && Field(req, "export_type") == Some("docx")
    ensures var (t', resp) := NewPatientStep(t, Some(owner), req, env);
      var states := SegmentStates(req, SEGMENT_COUNT).value;
      var name := Create(t, owner, req, env).value.patient.fullName;
      && (resp == ServerError <==>
            (exists k :: 0 <= k < SEGMENT_COUNT && states[k] > 3) || !Reports.XmlText(name) || !HeaderValueAllowed(name))
      && (resp == ServerError ==> t' == t)
      && (resp != ServerError ==> resp == FileDownload(Docx) && t' == Create(t, owner, req, env).value.tables)
  {
    var c := Create(t, owner, req, env).value;
    assert NewPatientStep(t, Some(owner), req, env) == Export(t, c, req, env);
    var report := ReportOf(c.tables, c.patient, c.exam);
    NewSegmentsUnknown(t, owner, req, env);
    Reports.DocxFailure(report, env.ef);
    Reports.AttachmentHeaderAllowed(c.patient.fullName, "docx");
  }

  /** A segment the report reads has an unknown state exactly when a submitted state is above 3. */
  lemma NewSegmentsUnknown(t: Tables, owner: UserId, req: Request, env: Env)
    requires Valid(t) && Create(t, owner, req, env).Ok?
    ensures var c := Create(t, owner, req, env).value;
      var segs := ReportOf(c.tables, c.patient, c.exam).segments;
      var states := SegmentStates(req, SEGMENT_COUNT).value;
      (exists i :: 0 <= i < |segs| && !(0 <= segs[i].state <= 3)) <==> (exists k :: 0 <= k < SEGMENT_COUNT && states[k] > 3)
  {
    var f := ReadForm(req, env).value;
    ReadFormStates(req, env);
    SegmentStatesNonNegative(req, SEGMENT_COUNT);
    var c := AddRows(t, owner, f);
    AddRowsSegmentsOf(t, owner, f);
    assert ReportOf(c.tables, c.patient, c.exam).segments == SegmentRows(c.exam.id, f.states);
  }

  // ----------------------------------------------------------------------- listing

  /** order_by('full_name'): the name's code points, compared lexicographically. */
  function NameKey(p: Patient): seq<int> {
    seq(|p.fullName|, i requires 0 <= i < |p.fullName| => p.fullName[i] as int)
  }

  function OwnedBy(ps: seq<Patient>, owner: UserId): seq<Patient> {
    Sorting.Filter(ps, (p: Patient) => p.owner == owner)
  }

  /** patient_list_view: the doctor's own patients ordered by full name. */
  function PatientList(t: Tables, user: Option<UserId>): (Response, seq<Patient>) {
    if user.None? then (Redirect(LoginUrlSetting), [])
    else (Render(HistoryPage, NoContext), Sorting.SortBy(OwnedBy(t.patients, user.value), NameKey))
  }

  /** The list holds exactly the user's patients, each as often as in the table, sorted by name. */
  lemma PatientListIsOwnSorted(t: Tables, owner: UserId)
    ensures var list := PatientList(t, Some(owner)).1;
      && (forall p: Patient :: p in list <==> p in t.patients && p.owner == owner)
      && (forall p: Patient :: multiset(list)[p] == if p.owner == owner then multiset(t.patients)[p] else 0)
      && Sorting.SortedBy(list, NameKey)
  {
    var own := OwnedBy(t.patients, owner);
    var list := Sorting.SortBy(own, NameKey);
    forall p: Patient ensures multiset(list)[p] == if p.owner == owner then multiset(t.patients)[p] else 0 {
      Sorting.FilterMultiset(t.patients, (p: Patient) => p.owner == owner, p);
    }
    forall p: Patient ensures p in list <==> p in t.patients && p.owner == owner {
      assert p in list <==> multiset(list)[p] > 0;
      assert p in t.patients <==> multiset(t.patients)[p] > 0;
    }
  }

  // ---------------------------------------------------------------------- deletion

  /** The examinations of a patient, which the cascade removes with it. */
  function ExamsOf(t: Tables, id: Id): set<Id> {
    set x | x in t.exams && x.patient == id :: x.id
  }

  /** The delete with its cascade: the patient, its examinations, their panels and segments. */
  function Cascade(t: Tables, id: Id): Tables {
    var doomed := ExamsOf(t, id);
    t.(patients := Sorting.Filter(t.patients, (p: Patient) => p.id != id),
       exams := Sorting.Filter(t.exams, (x: Examination) => x.patient != id),
       panels := map k | k in t.panels && k !in doomed :: t.panels[k],
       segments := Sorting.Filter(t.segments, (s: Segment) => s.exam !in doomed))
  }

  predicate Owns(t: Tables, id: Id, owner: UserId) {
    exists i :: 0 <= i < |t.patients| && t.patients[i].id == id && t.patients[i].owner == owner
  }

  /** delete_patient_view: only a POST deletes, and only a patient with that id owned by the
      user; every outcome redirects to the history page. */
  function DeleteStep(t: Tables, user: Option<UserId>, req: Request, id: Id): (Tables, Response) {
    if user.None? then (t, Redirect(LoginUrlSetting))
    else if req.verb == Post && Owns(t, id, user.value) then (Cascade(t, id), Redirect(PatientsHistory))
    else (t, Redirect(PatientsHistory))
  }

  method DeletePatientView(db: Database, user: Option<UserId>, req: Request, id: Id) returns (resp: Response)
    modifies db
    ensures (db.State(), resp) == DeleteStep(old(db.State()), user, req, id)
  {
    if user.None? {
      return Redirect(LoginUrlSetting);
    }
    if req.verb == Post {
      var i := 0;
      while i < |db.patients|
        invariant 0 <= i <= |db.patients| && unchanged(db)
        invariant forall j :: 0 <= j < i ==> !(db.patients[j].id == id && db.patients[j].owner == user.value)
      {
        if db.patients[i].id == id && db.patients[i].owner == user.value {
          db.DeletePatient(id);
          return Redirect(PatientsHistory);
        }
        i := i + 1;
      }
    }
    return Redirect(PatientsHistory);
  }

  /** Another user's patient, a missing id or a GET changes nothing. */
  lemma DeleteOnlyOwnOnPost(t: Tables, user: Option<UserId>, req: Request, id: Id)
    requires user.None? || req.verb != Post || !Owns(t, id, user.value)
    ensures DeleteStep(t, user, req, id).0 == t
  {
  }

  /** After the delete no row refers to the patient: it is gone, and so are its examinations,
      their panels and their segments. */
  lemma CascadeRemovesEverything(t: Tables, id: Id)
    ensures var n := Cascade(t, id);
      && (forall p :: p in n.patients ==> p.id != id)
      && (forall x :: x in n.exams ==> x.patient != id)
      && (forall k :: k in n.panels ==> k !in ExamsOf(t, id))
      && (forall s :: s in n.segments ==> s.exam !in ExamsOf(t, id))
  {
  }

  /** Nothing else changes: every other patient, examination, panel and segment stays. */
  lemma CascadeKeepsOthers(t: Tables, id: Id)
    ensures var n := Cascade(t, id);
      && (forall p :: p in t.patients && p.id != id ==> p in n.patients)
      && (forall x :: x in t.exams && x.patient != id ==> x in n.exams)
      && (forall k :: k in t.panels && k !in ExamsOf(t, id) ==> k in n.panels && n.panels[k] == t.panels[k])
      && (forall s :: s in t.segments && s.exam !in ExamsOf(t, id) ==> s in n.segments)
      && n.nextPatientId == t.nextPatientId && n.nextExamId == t.nextExamId
  {
    var n := Cascade(t, id);
    forall p | p in t.patients && p.id != id ensures p in n.patients {
      var i :| 0 <= i < |t.patients| && t.patients[i] == p;
    }
    forall x | x in t.exams && x.patient != id ensures x in n.exams {
      var i :| 0 <= i < |t.exams| && t.exams[i] == x;
    }
    forall s | s in t.segments && s.exam !in ExamsOf(t, id) ensures s in n.segments {
      var i :| 0 <= i < |t.segments| && t.segments[i] == s;
    }
  }

  /** A patient the delete keeps can still be referred to. */
  lemma KeptPatientId(t: Tables, id: Id, p: Patient)
    requires p in t.patients && p.id != id
    ensures p.id in PatientIds(Cascade(t, id).patients)
  {
    var kept := Cascade(t, id).patients;
    assert p in kept;
    var k :| 0 <= k < |kept| && kept[k] == p;
  }

  /** An examination the delete keeps can still be referred to. */
  lemma KeptExamId(t: Tables, id: Id, x: Examination)
    requires x in t.exams && x.patient != id
    ensures x.id in ExamIds(Cascade(t, id).exams)
  {
    var kept := Cascade(t, id).exams;
    assert x in kept;
    var k :| 0 <= k < |kept| && kept[k] == x;
  }

  /** The examination a key of an existing row refers to. */
  lemma ExamWithId(t: Tables, k: Id) returns (x: Examination)
    requires k in ExamIds(t.exams)
    ensures x in t.exams && x.id == k
  {
    var j :| 0 <= j < |t.exams| && t.exams[j].id == k;
    x := t.exams[j];
  }

  /** Deleting keeps the keys unique and below the next key. */
  lemma CascadeKeepsKeys(t: Tables, id: Id)
    requires Valid(t)
    ensures var n := Cascade(t, id);
      && (forall i, j :: 0 <= i < j < |n.patients| ==> n.patients[i].id < n.patients[j].id)
      && (forall i :: 0 <= i < |n.patients| ==> n.patients[i].id < n.nextPatientId)
      && (forall i, j :: 0 <= i < j < |n.exams| ==> n.exams[i].id < n.exams[j].id)
      && (forall i :: 0 <= i < |n.exams| ==> n.exams[i].id < n.nextExamId)
  {
    Sorting.FilterKeepsPairwise(t.patients, (p: Patient) => p.id != id, (a: Patient, b: Patient) => a.id < b.id);
    Sorting.FilterKeepsPairwise(t.exams, (x: Examination) => x.patient != id, (a: Examination, b: Examination) => a.id < b.id);
  }

  /** Deleting leaves no foreign key pointing at a removed row. */
  lemma CascadeKeepsReferences(t: Tables, id: Id)
    requires Valid(t)
    ensures var n := Cascade(t, id);
      && (forall i :: 0 <= i < |n.exams| ==> n.exams[i].patient in PatientIds(n.patients))
      && n.panels.Keys <= ExamIds(n.exams)
      && (forall i :: 0 <= i < |n.segments| ==>
            n.segments[i].exam in ExamIds(n.exams) && n.segments[i].number >= 0 && n.segments[i].state >= 0)
  {
    var n := Cascade(t, id);
    forall i | 0 <= i < |n.exams| ensures n.exams[i].patient in PatientIds(n.patients) {
      var x := n.exams[i];
      var j :| 0 <= j < |t.patients| && t.patients[j].id == x.patient;
      KeptPatientId(t, id, t.patients[j]);
    }
    forall k | k in n.panels ensures k in ExamIds(n.exams) {
      var x := ExamWithId(t, k);
      KeptExamId(t, id, x);
    }
    forall i | 0 <= i < |n.segments| ensures n.segments[i].exam in ExamIds(n.exams) {
      var x := ExamWithId(t, n.segments[i].exam);
      KeptExamId(t, id, x);
    }
  }

  /** Deleting keeps the schema's guarantees. */
  lemma CascadeKeepsValid(t: Tables, id: Id)
    requires Valid(t)
    ensures Valid(Cascade(t, id))
  {
    CascadeKeepsKeys(t, id);
    CascadeKeepsReferences(t, id);
  }
}
