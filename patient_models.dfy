/** The rows of the patients app: a patient owned by a doctor, its examinations, the
    one-to-one measurement panels of an examination, and its myocardial segments.
    Float columns keep the text Python prints for them; no float arithmetic is modelled. */
module PatientModels {
  import opened Wrappers

  type Id = nat

  /** The exceptions that escape the patients views and utilities: int() of a bad text or
      lxml refusing a text node, a NOT NULL or CHECK constraint refused by the database, a
      missing dictionary key, an integer too wide for the database to bind, a character
      openpyxl refuses in a cell, and a line break in a response header. */
  datatype Failure = ValueError | IntegrityError | KeyError | OverflowError | IllegalCharacterError | BadHeaderError

  type UserId = int

  /** A FloatField value, as the text str() gives for it. */
  datatype Float = Float(text: string)

  /** Python truthiness of a float: only zero is false. */
  predicate FloatTruthy(f: Float) {
    f.text != "0.0" && f.text != "-0.0"
  }

  type Year = y: int | 1 <= y <= 9999 witness 1
  type MonthNumber = m: int | 1 <= m <= 12 witness 1
  type DayNumber = d: int | 1 <= d <= 31 witness 1

  /** The calendar date of a DateTimeField value; the time of day and the zone are not modelled. */
  datatype DateTime = DateTime(year: Year, month: MonthNumber, day: DayNumber)

  /** Patient: user (the doctor, ForeignKey with CASCADE) and full_name. */
  datatype Patient = Patient(id: Id, owner: UserId, fullName: string)

  /** The columns of an Examination besides its keys; every one is nullable. */
  datatype ExamFields = ExamFields(
    examDatetime: Option<DateTime>, age: Option<int>,
    height: Option<Float>, weight: Option<Float>, bmi: Option<Float>, bsa: Option<Float>,
    hr: Option<int>)

  datatype Examination = Examination(id: Id, patient: Id, fields: ExamFields)

  datatype Aorta = Aorta(diameter: Option<Float>, valveOpening: Option<Float>, isEnabled: bool)

  datatype AorticValve = AorticValve(psk: Option<Float>, gradMax: Option<Float>, gradMean: Option<Float>,
                                     regurgitation: int, area: Option<Float>, isEnabled: bool)

  datatype LeftVentricle = LeftVentricle(ivsd: Option<Float>, edd: Option<Float>, esd: Option<Float>,
                                         pw: Option<Float>, edv: Option<Float>, esv: Option<Float>,
                                         hr: Option<int>, isEnabled: bool)

  datatype OtherChambers = OtherChambers(la: Option<Float>, ra: Option<Float>, rv: Option<Float>,
                                         lav: Option<Float>, isEnabled: bool)

  datatype MitralValve = MitralValve(e: Option<Float>, a: Option<Float>, gradMax: Option<Float>,
                                     dte: Option<Float>, ivrt: Option<Float>, reg: int, isEnabled: bool)

  datatype TricuspidValve = TricuspidValve(e: Option<Float>, a: Option<Float>, gradMax: Option<Float>,
                                           tapse: Option<Float>, reg: int, isEnabled: bool)

  datatype PulmonaryArtery = PulmonaryArtery(diameter: Option<Float>, gradMax: Option<Float>,
                                             velocity: Option<Float>, at: Option<Float>, et: Option<Float>,
                                             reg: int, ivc: Option<Float>, isEnabled: bool)

  /** The OneToOne rows of one examination; None where the examination has no such row. */
  datatype Panels = Panels(
    aorta: Option<Aorta>, aorticValve: Option<AorticValve>, leftVentricle: Option<LeftVentricle>,
    otherChambers: Option<OtherChambers>, mitralValve: Option<MitralValve>,
    tricuspidValve: Option<TricuspidValve>, pulmonaryArtery: Option<PulmonaryArtery>)

  /** MyocardialSegment: examination (ForeignKey with CASCADE), segment_number, state. */
  datatype Segment = Segment(exam: Id, number: int, state: int)

  /** The four tables with the next primary key each auto-increment column hands out. */
  datatype Tables = Tables(
    patients: seq<Patient>, exams: seq<Examination>, panels: map<Id, Panels>,
    segments: seq<Segment>, nextPatientId: Id, nextExamId: Id)

  function PatientIds(ps: seq<Patient>): set<Id> {
    set i | 0 <= i < |ps| :: ps[i].id
  }

  function ExamIds(es: seq<Examination>): set<Id> {
    set i | 0 <= i < |es| :: es[i].id
  }

  /** What the schema guarantees: keys are unique and below the next key, every foreign key
      names an existing row, and positive small integer columns are not negative. */
  ghost predicate Valid(t: Tables) {
    && (forall i, j :: 0 <= i < j < |t.patients| ==> t.patients[i].id < t.patients[j].id)
    && (forall i :: 0 <= i < |t.patients| ==> t.patients[i].id < t.nextPatientId)
    && (forall i, j :: 0 <= i < j < |t.exams| ==> t.exams[i].id < t.exams[j].id)
    && (forall i :: 0 <= i < |t.exams| ==> t.exams[i].id < t.nextExamId)
    && (forall i :: 0 <= i < |t.exams| ==> t.exams[i].patient in PatientIds(t.patients))
    && t.panels.Keys <= ExamIds(t.exams)
    && (forall i :: 0 <= i < |t.segments| ==>
          t.segments[i].exam in ExamIds(t.exams) && t.segments[i].number >= 0 && t.segments[i].state >= 0)
  }
}
