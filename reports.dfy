/** The report builders of the patients app: the two formatting helpers, the Word protocol
    (patient paragraphs, section tables gated on their panel, the local-contractility
    summary) and the Excel protocol with its running row counter. Only text content and
    cell positions are modelled: fonts, alignment, borders, merged ranges and the file
    encodings are presentation and are left to the libraries. */
module Reports {
  import opened Wrappers
  import opened PatientModels
  import Http
  import PyText
  import Sorting

  // ------------------------------------------------------------------ format_date

  /** What format_date can be handed: nothing, a str, or a datetime. */
  datatype DateArg = NoDate | Text(s: string) | At(dt: DateTime)

  function DateOf(f: ExamFields): DateArg {
    if f.examDatetime.Some? then At(f.examDatetime.value) else NoDate
  }

  /** strftime's %d and %m: two digits, zero-padded. */
  function Pad2(n: int): (r: string)
    requires 0 <= n < 100
    ensures |r| == 2 && PyText.IsDigit(r[0]) && PyText.IsDigit(r[1])
  {
    [PyText.DigitChar(n / 10), PyText.DigitChar(n % 10)]
  }

  /** format_date: "-" for a falsy argument, a str unchanged, a datetime as dd.mm.YYYY
      (%Y as glibc prints it: the year's decimal digits). */
  function FormatDate(d: DateArg): (r: string)
    ensures d == NoDate || d == Text("") ==> r == "-"
    ensures d.Text? && d.s != "" ==> r == d.s
    ensures d.At? ==> |r| >= 7 && r[2] == '.' && r[5] == '.' && r != "-"
  {
    match d
    case NoDate => "-"
    case Text(s) => if s == "" then "-" else s
    case At(dt) => Pad2(dt.day) + "." + Pad2(dt.month) + "." + PyText.NatToString(dt.year)
  }

  predicate AllDigits(s: string) {
    forall i :: 0 <= i < |s| ==> PyText.IsDigit(s[i])
  }

  /** Reads a dd.mm.YYYY text back into a date: the reference the layout is checked against. */
  function ParseDate(s: string): Option<DateTime> {
    if |s| >= 7 && s[2] == '.' && s[5] == '.' && AllDigits(s[..2]) && AllDigits(s[3..5]) && AllDigits(s[6..]) then
      var day := 10 * PyText.DigitOf(s[0]) + PyText.DigitOf(s[1]);
      var month := 10 * PyText.DigitOf(s[3]) + PyText.DigitOf(s[4]);
      var year := PyText.GroupValue(s[6..]);
      if 1 <= day <= 31 && 1 <= month <= 12 && 1 <= year <= 9999 then Some(DateTime(year, month, day)) else None
    else None
  }

  /** The date text determines the date: reading it back gives the datetime that was formatted. */
  lemma FormatDateRoundTrip(dt: DateTime)
    ensures ParseDate(FormatDate(At(dt))) == Some(dt)
  {
    var s := FormatDate(At(dt));
    var y := PyText.NatToString(dt.year);
    assert s[6..] == y;
    assert s[..2] == Pad2(dt.day) && s[3..5] == Pad2(dt.month);
    PyText.GroupValueOfNatToString(dt.year);
    assert 10 * PyText.DigitOf(s[0]) + PyText.DigitOf(s[1]) == dt.day;
    assert 10 * PyText.DigitOf(s[3]) + PyText.DigitOf(s[4]) == dt.month;
  }

  /** For four-digit years the text is exactly ten characters, dd.mm.YYYY. */
  lemma FormatDateFixedWidth(dt: DateTime)
    requires dt.year >= 1000
    ensures |FormatDate(At(dt))| == 10
  {
    var n := dt.year;
    assert |PyText.NatToString(n / 1000)| == 1;
    assert |PyText.NatToString(n / 100)| == |PyText.NatToString(n / 1000)| + 1 by { assert n / 100 / 10 == n / 1000; }
    assert |PyText.NatToString(n / 10)| == |PyText.NatToString(n / 100)| + 1 by { assert n / 10 / 10 == n / 100; }
    assert |PyText.NatToString(n)| == |PyText.NatToString(n / 10)| + 1;
  }

  // ---------------------------------------------------------------------- get_val

  /** A column value as get_val receives it. */
  datatype PyValue = PyNone | PyStr(s: string) | PyInt(i: int) | PyFloat(f: Float)

  /** f"{v}" */
  function Show(v: PyValue): string {
    match v
    case PyNone => "None"
    case PyStr(s) => s
    case PyInt(i) => PyText.IntToString(i)
    case PyFloat(f) => f.text
  }

  function OfInt(o: Option<int>): PyValue {
    if o.Some? then PyInt(o.value) else PyNone
  }

  function OfFloat(o: Option<Float>): PyValue {
    if o.Some? then PyFloat(o.value) else PyNone
  }

  /** get_val: "-" for None and the empty str, otherwise the value, a space and the unit. */
  function GetVal(v: PyValue, unit: string): string {
    if v == PyNone || v == PyStr("") then "-" else Show(v) + " " + unit
  }

  /** get_val gives "-" exactly for None and the empty str, is never empty, otherwise shows the
      value followed by a space and the unit, and so with no unit ends in a space. */
  lemma GetValMeaning(v: PyValue, unit: string)
    ensures GetVal(v, unit) == "-" <==> v == PyNone || v == PyStr("")
    ensures GetVal(v, unit) != ""
    ensures GetVal(v, unit) != "-" ==> GetVal(v, unit) == Show(v) + " " + unit
    ensures unit == "" && GetVal(v, unit) != "-" ==> GetVal(v, unit)[|GetVal(v, unit)| - 1] == ' '
  {
    if !(v == PyNone || v == PyStr("")) {
      var r := Show(v) + " " + unit;
      assert r[|Show(v)|] == ' ';
    }
  }

  // ------------------------------------------------------------ segment summary

  /** The keys of the STATES dictionary of the summary. */
  predicate HasStateName(state: int) {
    0 <= state <= 3
  }

  /** STATES[state] */
  function StateName(state: int): string
    requires HasStateName(state)
  {
    if state == 0 then "Норма" else if state == 1 then "Гипокинез" else if state == 2 then "Акинез" else "Дискинез"
  }

  const NO_DISORDERS := "Нарушения локальной сократимости не выявлены."
  const DISORDERS_FOUND := "Выявлены зоны нарушения сократимости:\n"

  predicate KnownStates(segs: seq<Segment>) {
    forall i :: 0 <= i < |segs| ==> HasStateName(segs[i].state)
  }

  function SegmentLabel(s: Segment): string
    requires HasStateName(s.state)
  {
    "Сегмент " + PyText.IntToString(s.number) + ": " + StateName(s.state)
  }

  predicate IsNormal(s: Segment) {
    s.state == 0
  }

  predicate IsAbnormal(s: Segment) {
    s.state != 0
  }

  function Normal(segs: seq<Segment>): seq<Segment> {
    Sorting.Filter(segs, IsNormal)
  }

  function Abnormal(segs: seq<Segment>): (r: seq<Segment>)
    ensures KnownStates(segs) ==> KnownStates(r)
  {
    var r := Sorting.Filter(segs, IsAbnormal);
    assert KnownStates(segs) ==> KnownStates(r) by {
      if KnownStates(segs) {
        forall i | 0 <= i < |r| ensures HasStateName(r[i].state) {
          var j :| 0 <= j < |segs| && segs[j] == r[i];
        }
      }
    }
    r
  }

  function Labels(bad: seq<Segment>): (r: seq<string>)
    requires KnownStates(bad)
    ensures |r| == |bad| && forall i :: 0 <= i < |bad| ==> r[i] == SegmentLabel(bad[i])
  {
    seq(|bad|, i requires 0 <= i < |bad| => SegmentLabel(bad[i]))
  }

  datatype Summary = Summary(normCount: nat, bad: seq<string>)

  /** What the loop over the segments yields: the number of normal segments and a label for
      each other segment in order, or a KeyError when some state is not in STATES. */
  function Summarize(segs: seq<Segment>): (r: Result<Summary, Failure>)
    ensures r.Err? <==> !KnownStates(segs)
    ensures r.Err? ==> r.error == KeyError
  {
    if KnownStates(segs) then Ok(Summary(|Normal(segs)|, Labels(Abnormal(segs)))) else Err(KeyError)
  }

  /** The segments seen so far, plus segment i. */
  lemma SummaryStep(segs: seq<Segment>, i: nat)
    requires i < |segs|
    ensures Normal(segs[..i + 1]) == Normal(segs[..i]) + (if IsNormal(segs[i]) then [segs[i]] else [])
    ensures Abnormal(segs[..i + 1]) == Abnormal(segs[..i]) + (if IsAbnormal(segs[i]) then [segs[i]] else [])
  {
    assert segs[..i + 1] == segs[..i] + [segs[i]];
    Sorting.FilterSnoc(segs[..i], segs[i], IsNormal);
    Sorting.FilterSnoc(segs[..i], segs[i], IsAbnormal);
  }

  /** The states seen so far are known exactly when those before i and the one at i are. */
  lemma KnownStatesPrefix(segs: seq<Segment>, i: nat)
    requires i < |segs|
    ensures KnownStates(segs[..i + 1]) <==> KnownStates(segs[..i]) && HasStateName(segs[i].state)
  {
    assert forall j :: 0 <= j < i ==> segs[..i + 1][j] == segs[..i][j];
    assert segs[..i + 1][i] == segs[i];
  }

  /** One more label after the ones collected so far. */
  lemma LabelsSnoc(bad: seq<Segment>, s: Segment)
    requires KnownStates(bad) && HasStateName(s.state)
    ensures KnownStates(bad + [s]) && Labels(bad + [s]) == Labels(bad) + [SegmentLabel(s)]
  {
  }

  /** One iteration of the summary loop: a normal segment is counted, another is labelled,
      and a state outside STATES raises the KeyError. */
  function SummaryAdd(sum: Summary, s: Segment): Result<Summary, Failure> {
    if s.state == 0 then Ok(Summary(sum.normCount + 1, sum.bad))
    else if !HasStateName(s.state) then Err(KeyError)
    else Ok(Summary(sum.normCount, sum.bad + [SegmentLabel(s)]))
  }

  /** Summarizing one segment more is one more iteration of the loop. */
  lemma SummarizeSnoc(segs: seq<Segment>, i: nat)
    requires i < |segs| && Summarize(segs[..i]).Ok?
    ensures Summarize(segs[..i + 1]) == SummaryAdd(Summarize(segs[..i]).value, segs[i])
  {
    var pre, s := segs[..i], segs[i];
    SummaryStep(segs, i);
    KnownStatesPrefix(segs, i);
    var sum := Summarize(pre).value;
    if s.state == 0 {
      assert Abnormal(segs[..i + 1]) == Abnormal(pre);
      assert |Normal(segs[..i + 1])| == sum.normCount + 1;
    } else if HasStateName(s.state) {
      LabelsSnoc(Abnormal(pre), s);
      assert Abnormal(segs[..i + 1]) == Abnormal(pre) + [s];
      assert Normal(segs[..i + 1]) == Normal(pre);
    } else {
      assert !KnownStates(segs[..i + 1]);
    }
  }

  /** The loop of generate_docx that counts normal segments and collects the others. */
  method SummarizeSegments(segs: seq<Segment>) returns (r: Result<Summary, Failure>)
    ensures r == Summarize(segs)
  {
    var normCount := 0;
    var bad: seq<string> := [];
    var i := 0;
    assert segs[..0] == [];
    while i < |segs|
      invariant 0 <= i <= |segs|
      invariant Summarize(segs[..i]) == Ok(Summary(normCount, bad))
    {
      var s := segs[i];
      SummarizeSnoc(segs, i);
      if s.state == 0 {
        normCount := normCount + 1;
      } else {
        if !HasStateName(s.state) {
          assert !KnownStates(segs);
          return Err(KeyError);
        }
        bad := bad + [SegmentLabel(s)];
      }
      i := i + 1;
    }
    assert segs[..i] == segs;
    return Ok(Summary(normCount, bad));
  }

  /** Every segment is counted as normal or listed as abnormal, never both. */
  lemma SummaryAccountsForEverySegment(segs: seq<Segment>)
    requires Summarize(segs).Ok?
    ensures Summarize(segs).value.normCount + |Summarize(segs).value.bad| == |segs|
  {
    Sorting.FilterPartition(segs, IsNormal, IsAbnormal);
  }

  function NumberKey(s: Segment): seq<int> {
    [s.number]
  }

  /** exam.segments.all().order_by('segment_number') */
  function Ordered(segs: seq<Segment>): (r: seq<Segment>)
    ensures multiset(r) == multiset(segs) && Sorting.SortedBy(r, NumberKey)
  {
    Sorting.SortBy(segs, NumberKey)
  }

  /** Over the ordered segments the abnormal ones, hence their labels, come in ascending
      segment_number order. */
  lemma AbnormalInAscendingOrder(segs: seq<Segment>)
    ensures var bad := Abnormal(Ordered(segs));
      forall i, j :: 0 <= i < j < |bad| ==> bad[i].number <= bad[j].number
  {
    var bad := Abnormal(Ordered(segs));
    Sorting.FilterKeepsSorted(Ordered(segs), IsAbnormal, NumberKey);
    forall i, j | 0 <= i < j < |bad| ensures bad[i].number <= bad[j].number {
      Sorting.LexLeSingleton(bad[i].number, bad[j].number);
    }
  }

  /** Sorting does not change which states occur, so the KeyError does not depend on the order. */
  lemma KnownStatesOfOrdered(segs: seq<Segment>)
    ensures KnownStates(Ordered(segs)) <==> KnownStates(segs)
  {
    var o := Ordered(segs);
    if KnownStates(segs) {
      forall i | 0 <= i < |o| ensures HasStateName(o[i].state) {
        assert o[i] in multiset(segs);
        var j :| 0 <= j < |segs| && segs[j] == o[i];
      }
    }
    if KnownStates(o) {
      forall i | 0 <= i < |segs| ensures HasStateName(segs[i].state) {
        assert segs[i] in multiset(o);
        var j :| 0 <= j < |o| && o[j] == segs[i];
      }
    }
  }

  /** The runs of the summary paragraph. */
  function SummaryRuns(sum: Summary): seq<string> {
    if sum.normCount == 17 then [NO_DISORDERS] else [DISORDERS_FOUND, PyText.Join(", ", sum.bad)]
  }

  /** For the seventeen segments an examination has, the "no disorders" text appears exactly
      when every segment is normal; otherwise the header and the list follow. */
  lemma NoDisordersIffAllNormal(segs: seq<Segment>)
    requires |segs| == 17 && Summarize(segs).Ok?
    ensures SummaryRuns(Summarize(segs).value) == [NO_DISORDERS] <==> forall i :: 0 <= i < |segs| ==> segs[i].state == 0
  {
    var sum := Summarize(segs).value;
    SummaryAccountsForEverySegment(segs);
    assert |SummaryRuns(sum)| == if sum.normCount == 17 then 1 else 2;
    assert sum.normCount == 17 ==> Abnormal(segs) == [];
    assert (forall i :: 0 <= i < |segs| ==> IsNormal(segs[i])) ==> Normal(segs) == segs;
  }

  // ------------------------------------------------------------------ Word protocol

  const HOSPITAL := "ГБУЗ НО «Центральная городская больница г. Арзамас»"
  const PROTOCOL_TITLE := "ПРОТОКОЛ ЭХОКАРДИОГРАФИИ"
  const AORTA_TITLE := "АОРТА"
  const AORTIC_VALVE_TITLE := "АОРТАЛЬНЫЙ КЛАПАН"
  const LEFT_VENTRICLE_TITLE := "ЛЕВЫЙ ЖЕЛУДОЧЕК"
  const CONTRACTILITY_TITLE := "ЛОКАЛЬНАЯ СОКРАТИМОСТЬ"
  const SECTION_LEVEL := 3

  /** A Word body element: a paragraph of runs, a heading, or a two-column table. */
  datatype Block = Paragraph(runs: seq<string>) | Heading(text: string, level: int) | Table(rows: seq<(string, string)>)

  /** What a report is built from: the examination, its patient's name, its panels and its segments. */
  datatype ExamReport = ExamReport(fullName: string, fields: ExamFields, panels: Panels, segments: seq<Segment>)

  predicate AortaShown(p: Panels) {
    p.aorta.Some? && p.aorta.value.isEnabled
  }

  predicate AorticValveShown(p: Panels) {
    p.aorticValve.Some? && p.aorticValve.value.isEnabled
  }

  predicate LeftVentricleShown(p: Panels) {
    p.leftVentricle.Some? && p.leftVentricle.value.isEnabled
  }

  /** The argument get_val receives for the ejection fraction: None unless both volumes are
      truthy; ef stands for round((edv - esv) / edv * 100, 1), or None when that is zero,
      computed in floating point. */
  function Ejection(lv: LeftVentricle, ef: (Float, Float) -> PyValue): PyValue {
    if lv.edv.Some? && FloatTruthy(lv.edv.value) && lv.esv.Some? && FloatTruthy(lv.esv.value)
    then ef(lv.edv.value, lv.esv.value) else PyNone
  }

  function DocxAortaRows(a: Aorta): seq<(string, string)> {
    [("Диаметр основания:", GetVal(OfFloat(a.diameter), "мм")),
     ("Раскрытие аортального клапана:", GetVal(OfFloat(a.valveOpening), "мм"))]
  }

  function DocxAorticValveRows(v: AorticValve): seq<(string, string)> {
    [("Пиковая скорость (Vmax):", GetVal(OfFloat(v.psk), "м/с")),
     ("Макс. градиент давления:", GetVal(OfFloat(v.gradMax), "мм рт.ст.")),
     ("Средний градиент:", GetVal(OfFloat(v.gradMean), "мм рт.ст.")),
     ("Площадь отверстия:", GetVal(OfFloat(v.area), "см²")),
     ("Регургитация:", PyText.IntToString(v.regurgitation) + " ст.")]
  }

  function DocxLeftVentricleRows(lv: LeftVentricle, ef: (Float, Float) -> PyValue): seq<(string, string)> {
    [("КДР (Конечно-диаст. размер):", GetVal(OfFloat(lv.edd), "мм")),
     ("КСР (Конечно-сист. размер):", GetVal(OfFloat(lv.esd), "мм")),
     ("КДО (Конечно-диаст. объем):", GetVal(OfFloat(lv.edv), "мл")),
     ("КСО (Конечно-сист. объем):", GetVal(OfFloat(lv.esv), "мл")),
     ("МЖП (толщина в диастолу):", GetVal(OfFloat(lv.ivsd), "мм")),
     ("ЗСЛЖ (толщина в диастолу):", GetVal(OfFloat(lv.pw), "мм")),
     ("Фракция выброса (Simpson):", GetVal(Ejection(lv, ef), "%"))]
  }

  /** The runs of the name-and-date paragraph. */
  function NameRuns(r: ExamReport): seq<string> {
    ["Ф.И.О.: ", r.fullName + "\t\t", "Дата: ", FormatDate(DateOf(r.fields))]
  }

  /** The runs of the age, height and weight paragraph. */
  function BodyRuns(f: ExamFields): seq<string> {
    ["Возраст: ", GetVal(OfInt(f.age), "лет") + "\t", "Рост: ", GetVal(OfFloat(f.height), "см") + "\t",
     "Вес: ", GetVal(OfFloat(f.weight), "кг") + "\t"]
  }

  /** The runs of the body-surface-area and heart-rate paragraph. */
  function VitalsRuns(f: ExamFields): seq<string> {
    ["ППТ: ", GetVal(OfFloat(f.bsa), "м²") + "\t", "ЧСС: ", GetVal(OfInt(f.hr), "уд/мин")]
  }

  /** The rule of 70 underscores under the patient block. */
  function Rule(): string { seq(70, _ => '_') }

  /** The title paragraphs, an empty paragraph, the three patient paragraphs and the rule. */
  function DocxHeader(r: ExamReport): (h: seq<Block>)
    ensures |h| == 7 && forall i :: 0 <= i < 7 ==> h[i].Paragraph?
  {
    [Paragraph([HOSPITAL]), Paragraph([PROTOCOL_TITLE]), Paragraph([]),
     Paragraph(NameRuns(r)), Paragraph(BodyRuns(r.fields)), Paragraph(VitalsRuns(r.fields)), Paragraph([Rule()])]
  }

  /** A section: its heading and its table, present only when its panel is shown. */
  function Section(shown: bool, title: string, rows: seq<(string, string)>): (s: seq<Block>)
    ensures forall x :: x in s <==> shown && (x == Heading(title, SECTION_LEVEL) || x == Table(rows))
  {
    if shown then [Heading(title, SECTION_LEVEL), Table(rows)] else []
  }

  function AortaSection(p: Panels): seq<Block> {
    Section(AortaShown(p), AORTA_TITLE, if p.aorta.Some? then DocxAortaRows(p.aorta.value) else [])
  }

  function AorticValveSection(p: Panels): seq<Block> {
    Section(AorticValveShown(p), AORTIC_VALVE_TITLE,
            if p.aorticValve.Some? then DocxAorticValveRows(p.aorticValve.value) else [])
  }

  function LeftVentricleSection(p: Panels, ef: (Float, Float) -> PyValue): seq<Block> {
    Section(LeftVentricleShown(p), LEFT_VENTRICLE_TITLE,
            if p.leftVentricle.Some? then DocxLeftVentricleRows(p.leftVentricle.value, ef) else [])
  }

  function DocxSections(p: Panels, ef: (Float, Float) -> PyValue): seq<Block> {
    AortaSection(p) + AorticValveSection(p) + LeftVentricleSection(p, ef)
  }

  /** The contractility heading and the summary paragraph that close the protocol. */
  function DocxSummary(sum: Summary): seq<Block> {
    [Heading(CONTRACTILITY_TITLE, SECTION_LEVEL), Paragraph(SummaryRuns(sum))]
  }

  /** A character the Char production of XML 1.0 (section 2.2) admits. */
  predicate IsXmlChar(c: char) {
    || c == '\t' || c == '\n' || c == '\r'
    || ('\U{0020}' <= c <= '\U{D7FF}') || ('\U{E000}' <= c <= '\U{FFFD}') || ('\U{10000}' <= c <= '\U{10FFFF}')
  }

  /** A run text python-docx can store: tabs and line breaks become their own elements and
      lxml refuses, with a ValueError, a text node holding any character XML cannot carry. */
  predicate XmlText(s: string) {
    forall i :: 0 <= i < |s| ==> IsXmlChar(s[i])
  }

  /** The body of the Word protocol, or the exception that stops it: the name run, the first
      text taken from the form, raises ValueError when XML cannot carry it, and the summary
      near the end raises KeyError. Every other run is a constant, a date or a number. */
  function DocxContent(r: ExamReport, ef: (Float, Float) -> PyValue): Result<seq<Block>, Failure> {
    if !XmlText(r.fullName) then Err(ValueError)
    else
      match Summarize(Ordered(r.segments))
      case Err(e) => Err(e)
      case Ok(sum) => Ok(DocxHeader(r) + DocxSections(r.panels, ef) + DocxSummary(sum))
  }

  /** The headings of the protocol are exactly the shown sections' titles and the contractility title. */
  lemma DocxHeadings(r: ExamReport, ef: (Float, Float) -> PyValue, title: string)
    requires DocxContent(r, ef).Ok?
    ensures Heading(title, SECTION_LEVEL) in DocxContent(r, ef).value <==>
      || (title == AORTA_TITLE && AortaShown(r.panels))
      || (title == AORTIC_VALVE_TITLE && AorticValveShown(r.panels))
      || (title == LEFT_VENTRICLE_TITLE && LeftVentricleShown(r.panels))
      || title == CONTRACTILITY_TITLE
  {
    var p := r.panels;
    var sum := Summarize(Ordered(r.segments)).value;
    var h, s, tail := DocxHeader(r), DocxSections(p, ef), DocxSummary(sum);
    var x := Heading(title, SECTION_LEVEL);
    assert DocxContent(r, ef).value == h + s + tail;
    assert x !in h;
    assert x in tail <==> title == CONTRACTILITY_TITLE;
    assert x in s <==> x in AortaSection(p) || x in AorticValveSection(p) || x in LeftVentricleSection(p, ef);
  }

  /** The Aorta, Aortic-valve and Left-ventricle sections appear exactly when their panel exists
      and is enabled; the contractility heading always appears. */
  lemma DocxSectionGating(r: ExamReport, ef: (Float, Float) -> PyValue)
    requires DocxContent(r, ef).Ok?
    ensures var blocks := DocxContent(r, ef).value;
      && (Heading(AORTA_TITLE, SECTION_LEVEL) in blocks <==> AortaShown(r.panels))
      && (Heading(AORTIC_VALVE_TITLE, SECTION_LEVEL) in blocks <==> AorticValveShown(r.panels))
      && (Heading(LEFT_VENTRICLE_TITLE, SECTION_LEVEL) in blocks <==> LeftVentricleShown(r.panels))
      && Heading(CONTRACTILITY_TITLE, SECTION_LEVEL) in blocks
  {
    assert |AORTA_TITLE| == 5 && |AORTIC_VALVE_TITLE| == 17 && |LEFT_VENTRICLE_TITLE| == 15 && |CONTRACTILITY_TITLE| == 22;
    DocxHeadings(r, ef, AORTA_TITLE);
    DocxHeadings(r, ef, AORTIC_VALVE_TITLE);
    DocxHeadings(r, ef, LEFT_VENTRICLE_TITLE);
    DocxHeadings(r, ef, CONTRACTILITY_TITLE);
  }

  /** The Word protocol fails exactly when the name holds a character XML cannot carry
      (ValueError) or, failing that, when some segment's state is not 0..3 (KeyError). */
  lemma DocxFailure(r: ExamReport, ef: (Float, Float) -> PyValue)
    ensures DocxContent(r, ef).Err? <==>
      !XmlText(r.fullName) || exists i :: 0 <= i < |r.segments| && !(0 <= r.segments[i].state <= 3)
    ensures DocxContent(r, ef).Err? ==>
      DocxContent(r, ef).error == if !XmlText(r.fullName) then ValueError else KeyError
  {
    KnownStatesOfOrdered(r.segments);
    assert XmlText(r.fullName) ==> (DocxContent(r, ef).Err? <==> Summarize(Ordered(r.segments)).Err?);
  }

  /** Content-Disposition of a protocol download: attachment; filename="Echo_<name>.<ext>". */
  function AttachmentHeader(name: string, ext: string): string {
    "attachment; filename=\"Echo_" + name + "." + ext + "\""
  }

  /** The download header is refused exactly when the patient's name holds a line break. */
  lemma AttachmentHeaderAllowed(name: string, ext: string)
    requires Http.HeaderValueAllowed(ext)
    ensures Http.HeaderValueAllowed(AttachmentHeader(name, ext)) <==> Http.HeaderValueAllowed(name)
  {
    var h := AttachmentHeader(name, ext);
    var pre := "attachment; filename=\"Echo_";
    assert h == pre + name + ("." + ext + "\"");
    forall c | c == '\n' || c == '\r'
      ensures c in h <==> c in name || c in ext
    {
      InConcat(pre, name, "." + ext + "\"", c);
    }
  }

  lemma InConcat(a: string, b: string, c: string, x: char)
    ensures x in a + b + c <==> x in a || x in b || x in c
  {
    if x in a + b + c {
      var i :| 0 <= i < |a + b + c| && (a + b + c)[i] == x;
      if i < |a| { assert a[i] == x; } else if i < |a| + |b| { assert b[i - |a|] == x; } else { assert c[i - |a| - |b|] == x; }
    }
    if x in b {
      var i :| 0 <= i < |b| && b[i] == x;
      assert (a + b + c)[|a| + i] == x;
    }
    if x in c {
      var i :| 0 <= i < |c| && c[i] == x;
      assert (a + b + c)[|a| + |b| + i] == x;
    }
  }

  /** The document generate_docx appends to. */
  class DocxDocument {
    var blocks: seq<Block>

    constructor ()
      ensures blocks == []
    {
      blocks := [];
    }

    method AddParagraph(runs: seq<string>)
      modifies this
      ensures blocks == old(blocks) + [Paragraph(runs)]
    {
      blocks := blocks + [Paragraph(runs)];
    }

    method AddHeading(text: string, level: int)
      modifies this
      ensures blocks == old(blocks) + [Heading(text, level)]
    {
      blocks := blocks + [Heading(text, level)];
    }

    /** add_table(rows=n, cols=2): a table of n rows with empty cells. */
    method AddTable(n: nat)
      modifies this
      ensures blocks == old(blocks) + [Table(BlankRows(n))]
    {
      blocks := blocks + [Table(BlankRows(n))];
    }

    /** table.rows[i].cells[col].text = text, on the table added last. */
    method SetCell(i: nat, col: nat, text: string)
      requires |blocks| > 0 && blocks[|blocks| - 1].Table? && i < |blocks[|blocks| - 1].rows| && col < 2
      modifies this
      ensures var rows := old(blocks[|blocks| - 1].rows);
        blocks == old(blocks[..|blocks| - 1]) + [Table(rows[i := if col == 0 then (text, rows[i].1) else (rows[i].0, text)])]
    {
      var rows := blocks[|blocks| - 1].rows;
      var row := if col == 0 then (text, rows[i].1) else (rows[i].0, text);
      blocks := blocks[..|blocks| - 1] + [Table(rows[i := row])];
    }
  }

  /** n rows of two empty cells. */
  function BlankRows(n: nat): (rows: seq<(string, string)>)
    ensures |rows| == n && forall i :: 0 <= i < n ==> rows[i] == ("", "")
  {
    seq(n, _ => ("", ""))
  }

  /** The first i rows filled from pairs, the rest still blank; filling row i advances it. */
  lemma FillRow(pairs: seq<(string, string)>, i: nat)
    requires i < |pairs|
    ensures (pairs[..i] + BlankRows(|pairs| - i))[i := pairs[i]] == pairs[..i + 1] + BlankRows(|pairs| - (i + 1))
  {
  }

  /** create_section_table: a level-3 heading, then a table with one row per pair, filled in
      order with the label and the value's text. */
  method CreateSectionTable(doc: DocxDocument, title: string, pairs: seq<(string, string)>)
    modifies doc
    ensures doc.blocks == old(doc.blocks) + [Heading(title, SECTION_LEVEL), Table(pairs)]
  {
    doc.AddHeading(title, SECTION_LEVEL);
    ghost var before := doc.blocks;
    doc.AddTable(|pairs|);
    assert pairs[..0] + BlankRows(|pairs|) == BlankRows(|pairs|);
    var i := 0;
    while i < |pairs|
      invariant 0 <= i <= |pairs|
      invariant doc.blocks == before + [Table(pairs[..i] + BlankRows(|pairs| - i))]
    {
      ghost var rows := pairs[..i] + BlankRows(|pairs| - i);
      var (name, value) := pairs[i];
      doc.SetCell(i, 0, name);
      assert doc.blocks == before + [Table(rows[i := (name, "")])];
      doc.SetCell(i, 1, value);
      assert rows[i := (name, "")][i := (name, value)] == rows[i := pairs[i]];
      FillRow(pairs, i);
      i := i + 1;
    }
    assert pairs[..i] + BlankRows(0) == pairs;
  }

  /** The paragraphs above the sections. */
  method WriteDocxHeader(doc: DocxDocument, r: ExamReport)
    modifies doc
    ensures doc.blocks == old(doc.blocks) + DocxHeader(r)
  {
    doc.AddParagraph([HOSPITAL]);
    doc.AddParagraph([PROTOCOL_TITLE]);
    doc.AddParagraph([]);
    doc.AddParagraph(NameRuns(r));
    doc.AddParagraph(BodyRuns(r.fields));
    doc.AddParagraph(VitalsRuns(r.fields));
    doc.AddParagraph([Rule()]);
  }

  /** One "if is_enabled: create_section_table(...)" block. */
  method WriteGatedSection(doc: DocxDocument, shown: bool, title: string, rows: seq<(string, string)>)
    modifies doc
    ensures doc.blocks == old(doc.blocks) + Section(shown, title, rows)
  {
    if shown {
      CreateSectionTable(doc, title, rows);
    } else {
      assert old(doc.blocks) + [] == doc.blocks;
    }
  }

  /** The three gated sections, each written with create_section_table when shown. */
  method WriteDocxSections(doc: DocxDocument, p: Panels, ef: (Float, Float) -> PyValue)
    modifies doc
    ensures doc.blocks == old(doc.blocks) + DocxSections(p, ef)
  {
    ghost var start := doc.blocks;
    WriteGatedSection(doc, AortaShown(p), AORTA_TITLE, if p.aorta.Some? then DocxAortaRows(p.aorta.value) else []);
    WriteGatedSection(doc, AorticValveShown(p), AORTIC_VALVE_TITLE,
                      if p.aorticValve.Some? then DocxAorticValveRows(p.aorticValve.value) else []);
    WriteGatedSection(doc, LeftVentricleShown(p), LEFT_VENTRICLE_TITLE,
                      if p.leftVentricle.Some? then DocxLeftVentricleRows(p.leftVentricle.value, ef) else []);
    AppendThree(start + AortaSection(p), AorticValveSection(p), LeftVentricleSection(p, ef));
    AppendThree(start, AortaSection(p), AorticValveSection(p));
    AppendThree(start, AortaSection(p) + AorticValveSection(p), LeftVentricleSection(p, ef));
  }

  /** generate_docx, up to saving the document: the body it builds is DocxContent. The name
      is checked before the header is written; the document is discarded on either failure. */
  method GenerateDocx(r: ExamReport, ef: (Float, Float) -> PyValue) returns (res: Result<seq<Block>, Failure>)
    ensures res == DocxContent(r, ef)
  {
    var i := 0;
    while i < |r.fullName|
      invariant 0 <= i <= |r.fullName|
      invariant forall j :: 0 <= j < i ==> IsXmlChar(r.fullName[j])
    {
      if !IsXmlChar(r.fullName[i]) {
        return Err(ValueError);
      }
      i := i + 1;
    }
    var doc := new DocxDocument();
    WriteDocxHeader(doc, r);
    assert doc.blocks == DocxHeader(r);
    WriteDocxSections(doc, r.panels, ef);
    ghost var body := doc.blocks;
    doc.AddHeading(CONTRACTILITY_TITLE, SECTION_LEVEL);
    var summary := SummarizeSegments(Ordered(r.segments));
    if summary.Err? {
      return Err(summary.error);
    }
    doc.AddParagraph(SummaryRuns(summary.value));
    assert doc.blocks == body + DocxSummary(summary.value);
    return Ok(doc.blocks);
  }

  // ----------------------------------------------------------------- Excel protocol

  /** One ws.cell(row=r, column=c, value=v) assignment. */
  datatype CellWrite = CellWrite(row: int, col: int, value: string)

  /** The active worksheet, as the assignments made to its cells in order. */
  class XlsxSheet {
    var writes: seq<CellWrite>

    constructor ()
      ensures writes == []
    {
      writes := [];
    }

    /** write_cell(r, c, val) */
    method WriteCell(r: int, c: int, v: string)
      modifies this
      ensures writes == old(writes) + [CellWrite(r, c, v)]
    {
      writes := writes + [CellWrite(r, c, v)];
    }
  }

  /** No (row, column) position is assigned twice. */
  predicate DistinctCells(ws: seq<CellWrite>) {
    forall i, j :: 0 <= i < j < |ws| ==> ws[i].row != ws[j].row || ws[i].col != ws[j].col
  }

  predicate RowsWithin(ws: seq<CellWrite>, lo: int, hi: int) {
    forall i :: 0 <= i < |ws| ==> lo <= ws[i].row < hi
  }

  /** Writes that are each distinct and lie on disjoint rows are distinct together. */
  lemma DistinctAppend(a: seq<CellWrite>, b: seq<CellWrite>, lo: int, mid: int, hi: int)
    requires lo <= mid <= hi
    requires DistinctCells(a) && DistinctCells(b) && RowsWithin(a, lo, mid) && RowsWithin(b, mid, hi)
    ensures DistinctCells(a + b) && RowsWithin(a + b, lo, hi)
  {
    var c := a + b;
    forall i | 0 <= i < |c| ensures lo <= c[i].row < hi {
      if i < |a| { assert c[i] == a[i]; } else { assert c[i] == b[i - |a|]; }
    }
    forall i, j | 0 <= i < j < |c| ensures c[i].row != c[j].row || c[i].col != c[j].col {
      if j < |a| {
        assert c[i] == a[i] && c[j] == a[j];
      } else if i >= |a| {
        assert c[i] == b[i - |a|] && c[j] == b[j - |a|];
      } else {
        assert c[i] == a[i] && c[j] == b[j - |a|];
      }
    }
  }

  /** The data rows of a section from row on: label in column A, value in column B. */
  function DataWrites(row: int, data: seq<(string, string)>): (ws: seq<CellWrite>)
    ensures |ws| == 2 * |data|
    decreases |data|
  {
    if data == [] then []
    else
      var k := |data| - 1;
      DataWrites(row, data[..k]) + [CellWrite(row + k, 1, data[k].0), CellWrite(row + k, 2, data[k].1)]
  }

  /** Row k of the data holds its label in column A and its value in column B, on row + k. */
  lemma {:induction false} DataWritesEntries(row: int, data: seq<(string, string)>, k: nat)
    requires k < |data|
    ensures DataWrites(row, data)[2 * k] == CellWrite(row + k, 1, data[k].0)
    ensures DataWrites(row, data)[2 * k + 1] == CellWrite(row + k, 2, data[k].1)
    decreases |data|
  {
    var n := |data| - 1;
    if k < n {
      DataWritesEntries(row, data[..n], k);
    }
  }

  /** The data rows lie on rows row .. row + |data| - 1, and no cell is written twice. */
  lemma {:induction false} DataWritesDistinct(row: int, data: seq<(string, string)>)
    ensures RowsWithin(DataWrites(row, data), row, row + |data|) && DistinctCells(DataWrites(row, data))
    decreases |data|
  {
    if data != [] {
      var k := |data| - 1;
      DataWritesDistinct(row, data[..k]);
      DistinctAppend(DataWrites(row, data[..k]), [CellWrite(row + k, 1, data[k].0), CellWrite(row + k, 2, data[k].1)],
                     row, row + k, row + k + 1);
    }
  }

  /** write_section at a given row: the title in column A, then the data rows below it. */
  function SectionWrites(row: int, title: string, data: seq<(string, string)>): (ws: seq<CellWrite>)
    ensures |ws| == 2 * |data| + 1 && ws[0] == CellWrite(row, 1, title)
  {
    [CellWrite(row, 1, title)] + DataWrites(row + 1, data)
  }

  lemma SectionWritesShape(row: int, title: string, data: seq<(string, string)>)
    ensures RowsWithin(SectionWrites(row, title, data), row, row + |data| + 1)
    ensures DistinctCells(SectionWrites(row, title, data))
  {
    DataWritesDistinct(row + 1, data);
    DistinctAppend([CellWrite(row, 1, title)], DataWrites(row + 1, data), row, row + 1, row + |data| + 1);
  }

  /** The data rows written so far, plus row i. */
  lemma DataWritesSnoc(row: int, data: seq<(string, string)>, i: nat)
    requires i < |data|
    ensures DataWrites(row, data[..i + 1])
      == DataWrites(row, data[..i]) + [CellWrite(row + i, 1, data[i].0), CellWrite(row + i, 2, data[i].1)]
  {
    assert data[..i + 1][..i] == data[..i];
  }

  /** One iteration of write_section's loop: label in column A, value in column B. */
  method WriteRow(ws: XlsxSheet, r: int, name: string, value: string)
    modifies ws
    ensures ws.writes == old(ws.writes) + [CellWrite(r, 1, name), CellWrite(r, 2, value)]
  {
    ws.WriteCell(r, 1, name);
    ws.WriteCell(r, 2, value);
  }

  /** write_section: writes the section at row and returns the row after it and one blank row. */
  method WriteSection(ws: XlsxSheet, row: int, title: string, data: seq<(string, string)>) returns (next: int)
    modifies ws
    ensures next == row + |data| + 2
    ensures ws.writes == old(ws.writes) + SectionWrites(row, title, data)
  {
    ws.WriteCell(row, 1, title);
    ghost var start := ws.writes;
    var r := row + 1;
    var i := 0;
    while i < |data|
      invariant 0 <= i <= |data| && r == row + 1 + i
      invariant ws.writes == start + DataWrites(row + 1, data[..i])
    {
      WriteRow(ws, r, data[i].0, data[i].1);
      DataWritesSnoc(row + 1, data, i);
      r := r + 1;
      i := i + 1;
    }
    assert data[..i] == data;
    r := r + 1;
    return r;
  }

  /** The row where section k starts when the sections are written one after the other from row on. */
  function SectionStart(row: int, secs: seq<(string, seq<(string, string)>)>, k: nat): (r: int)
    requires k <= |secs|
    ensures r >= row + 2 * k
    decreases k
  {
    if k == 0 then row else SectionStart(row, secs, k - 1) + |secs[k - 1].1| + 2
  }

  /** The sections written one after the other, each starting where the counter left the one before. */
  function SectionsWrites(row: int, secs: seq<(string, seq<(string, string)>)>): seq<CellWrite>
    decreases |secs|
  {
    if secs == [] then []
    else
      var k := |secs| - 1;
      SectionsWrites(row, secs[..k]) + SectionWrites(SectionStart(row, secs[..k], k), secs[k].0, secs[k].1)
  }

  /** The sections lie between row and the row the counter ends on, and no cell is written twice. */
  lemma {:induction false} SectionsWritesShape(row: int, secs: seq<(string, seq<(string, string)>)>)
    ensures DistinctCells(SectionsWrites(row, secs)) && RowsWithin(SectionsWrites(row, secs), row, SectionStart(row, secs, |secs|))
    decreases |secs|
  {
    if secs != [] {
      var k := |secs| - 1;
      SectionsWritesShape(row, secs[..k]);
      var start := SectionStart(row, secs[..k], k);
      SectionStartPrefix(row, secs, k, k);
      SectionWritesShape(start, secs[k].0, secs[k].1);
      DistinctAppend(SectionsWrites(row, secs[..k]), SectionWrites(start, secs[k].0, secs[k].1),
                     row, start, start + |secs[k].1| + 2);
    }
  }

  /** Section starts depend only on the sections before. */
  lemma {:induction false} SectionStartPrefix(row: int, secs: seq<(string, seq<(string, string)>)>, n: nat, k: nat)
    requires k <= n <= |secs|
    ensures SectionStart(row, secs[..n], k) == SectionStart(row, secs, k)
    decreases k
  {
    if k > 0 {
      SectionStartPrefix(row, secs, n, k - 1);
    }
  }

  const FIRST_SECTION_ROW := 7
  const NAME_CELL := "Ф.И.О. пациента:"
  const DATE_CELL := "Дата исследования:"
  const AGE_CELL := "Возраст:"
  const HEIGHT_WEIGHT_CELL := "Рост / Вес:"

  function XlsxAortaRows(a: Aorta): seq<(string, string)> {
    [("Диаметр основания", GetVal(OfFloat(a.diameter), "мм")),
     ("Раскрытие створок", GetVal(OfFloat(a.valveOpening), "мм"))]
  }

  function XlsxLeftVentricleRows(lv: LeftVentricle, ef: (Float, Float) -> PyValue): seq<(string, string)> {
    [("КДР", GetVal(OfFloat(lv.edd), "мм")),
     ("КСР", GetVal(OfFloat(lv.esd), "мм")),
     ("КДО", GetVal(OfFloat(lv.edv), "мл")),
     ("КСО", GetVal(OfFloat(lv.esv), "мл")),
     ("Толщина МЖП", GetVal(OfFloat(lv.ivsd), "мм")),
     ("Толщина ЗСЛЖ", GetVal(OfFloat(lv.pw), "мм")),
     ("Фракция выброса (Simpson)", GetVal(Ejection(lv, ef), "%"))]
  }

  /** The Aorta section of the Excel protocol, when shown. */
  function XlsxAortaSection(p: Panels): seq<(string, seq<(string, string)>)> {
    if AortaShown(p) then [(AORTA_TITLE, XlsxAortaRows(p.aorta.value))] else []
  }

  /** The Left-ventricle section of the Excel protocol, when shown. */
  function XlsxLeftVentricleSection(p: Panels, ef: (Float, Float) -> PyValue): seq<(string, seq<(string, string)>)> {
    if LeftVentricleShown(p) then [(LEFT_VENTRICLE_TITLE, XlsxLeftVentricleRows(p.leftVentricle.value, ef))] else []
  }

  /** The sections of the Excel protocol, in order: Aorta and Left ventricle, each when shown. */
  function XlsxSections(p: Panels, ef: (Float, Float) -> PyValue): seq<(string, seq<(string, string)>)> {
    XlsxAortaSection(p) + XlsxLeftVentricleSection(p, ef)
  }

  /** Values written left to right on one row, from column A on. */
  function RowWrites(row: int, values: seq<string>): (ws: seq<CellWrite>)
    ensures |ws| == |values|
    ensures forall i :: 0 <= i < |values| ==> ws[i] == CellWrite(row, i + 1, values[i])
  {
    seq(|values|, i requires 0 <= i < |values| => CellWrite(row, i + 1, values[i]))
  }

  lemma RowWritesDistinct(row: int, values: seq<string>)
    ensures DistinctCells(RowWrites(row, values)) && RowsWithin(RowWrites(row, values), row, row + 1)
  {
  }

  /** The longest text an openpyxl cell keeps. */
  const MAX_CELL_LENGTH := 32767

  /** The value openpyxl stores for a text: its first 32767 characters. */
  function CellText(s: string): (t: string)
    ensures |t| <= MAX_CELL_LENGTH && t <= s
    ensures |s| <= MAX_CELL_LENGTH ==> t == s
    ensures |s| > MAX_CELL_LENGTH ==> |t| == MAX_CELL_LENGTH
  {
    if |s| <= MAX_CELL_LENGTH then s else s[..MAX_CELL_LENGTH]
  }

  /** The control characters openpyxl refuses in a cell: \000-\010, \013-\014 and \016-\037;
      tab, line feed and carriage return pass. */
  predicate IsIllegalCellChar(c: char) {
    c <= '\U{0008}' || c == '\U{000B}' || c == '\U{000C}' || ('\U{000E}' <= c <= '\U{001F}')
  }

  /** Whether openpyxl stores a text: the check runs on the truncated value. */
  predicate CellAccepts(s: string) {
    forall i :: 0 <= i < |CellText(s)| ==> !IsIllegalCellChar(CellText(s)[i])
  }

  /** Row 4: the name and the examination date, each after its caption. */
  function PatientRow(r: ExamReport): (v: seq<string>)
    ensures |v| == 4 && v[0] == NAME_CELL && v[1] == CellText(r.fullName)
  {
    [NAME_CELL, CellText(r.fullName), DATE_CELL, FormatDate(DateOf(r.fields))]
  }

  /** Row 5: the age, and the height and weight separated by a slash. */
  function VitalsRow(f: ExamFields): (v: seq<string>)
    ensures |v| == 4 && v[0] == AGE_CELL
  {
    [AGE_CELL, GetVal(OfInt(f.age), ""), HEIGHT_WEIGHT_CELL,
     GetVal(OfFloat(f.height), "") + " / " + GetVal(OfFloat(f.weight), "")]
  }

  /** The two title rows and the patient block on rows 4 and 5. */
  function XlsxHeaderWrites(r: ExamReport): seq<CellWrite> {
    [CellWrite(1, 1, HOSPITAL), CellWrite(2, 1, PROTOCOL_TITLE)] + RowWrites(4, PatientRow(r)) + RowWrites(5, VitalsRow(r.fields))
  }

  function XlsxWrites(r: ExamReport, ef: (Float, Float) -> PyValue): seq<CellWrite> {
    XlsxHeaderWrites(r) + SectionsWrites(FIRST_SECTION_ROW, XlsxSections(r.panels, ef))
  }

  /** The cells of the Excel protocol, or the IllegalCharacterError the name's cell raises.
      Every other cell holds a constant, a date or a number. */
  function XlsxContent(r: ExamReport, ef: (Float, Float) -> PyValue): Result<seq<CellWrite>, Failure> {
    if CellAccepts(r.fullName) then Ok(XlsxWrites(r, ef)) else Err(IllegalCharacterError)
  }

  /** The Excel protocol fails only on its name: exactly when one of the first 32767 characters
      is a control character other than tab, line feed and carriage return. A name of at most
      32767 characters is stored whole. */
  lemma XlsxFailure(r: ExamReport, ef: (Float, Float) -> PyValue)
    ensures XlsxContent(r, ef).Err? <==>
      exists i :: 0 <= i < |r.fullName| && i < MAX_CELL_LENGTH && IsIllegalCellChar(r.fullName[i])
    ensures XlsxContent(r, ef).Err? ==> XlsxContent(r, ef).error == IllegalCharacterError
    ensures |r.fullName| <= MAX_CELL_LENGTH ==> CellWrite(4, 2, r.fullName) in XlsxWrites(r, ef)
  {
    var t := CellText(r.fullName);
    assert forall i :: 0 <= i < |t| ==> t[i] == r.fullName[i];
    XlsxLayout(r, ef);
  }

  /** Section k's title is in column A of the row the counter reached for it. */
  lemma SectionTitleAtItsStart(row: int, secs: seq<(string, seq<(string, string)>)>, k: nat)
    requires k < |secs|
    ensures CellWrite(SectionStart(row, secs, k), 1, secs[k].0) in SectionsWrites(row, secs)
    decreases |secs|
  {
    var n := |secs| - 1;
    if k < n {
      SectionTitleAtItsStart(row, secs[..n], k);
      SectionStartPrefix(row, secs, n, k);
      assert secs[..n][k] == secs[k];
    } else {
      SectionStartPrefix(row, secs, n, k);
    }
  }

  /** The header writes: rows 1, 2, 4 and 5, no cell twice. */
  lemma XlsxHeaderShape(r: ExamReport)
    ensures DistinctCells(XlsxHeaderWrites(r)) && RowsWithin(XlsxHeaderWrites(r), 1, FIRST_SECTION_ROW)
    ensures XlsxHeaderWrites(r)[2] == CellWrite(4, 1, NAME_CELL) && XlsxHeaderWrites(r)[3] == CellWrite(4, 2, CellText(r.fullName))
    ensures XlsxHeaderWrites(r)[6] == CellWrite(5, 1, AGE_CELL)
  {
    var v4, v5 := PatientRow(r), VitalsRow(r.fields);
    var titles := [CellWrite(1, 1, HOSPITAL), CellWrite(2, 1, PROTOCOL_TITLE)];
    RowWritesDistinct(4, v4);
    RowWritesDistinct(5, v5);
    DistinctAppend(titles, RowWrites(4, v4), 1, 4, 5);
    DistinctAppend(titles + RowWrites(4, v4), RowWrites(5, v5), 1, 5, 6);
  }

  /** No cell of the Excel protocol is written twice. */
  lemma XlsxCellsWrittenOnce(r: ExamReport, ef: (Float, Float) -> PyValue)
    ensures DistinctCells(XlsxWrites(r, ef))
  {
    var secs := XlsxSections(r.panels, ef);
    XlsxHeaderShape(r);
    SectionsWritesShape(FIRST_SECTION_ROW, secs);
    DistinctAppend(XlsxHeaderWrites(r), SectionsWrites(FIRST_SECTION_ROW, secs), 1, FIRST_SECTION_ROW,
                   SectionStart(FIRST_SECTION_ROW, secs, |secs|));
  }

  /** The patient block sits on rows 4 and 5, the first section starts on row 7, and with both
      sections shown the Left-ventricle title is on row 11 (7, then the title row, 2 data rows
      and a blank row). */
  lemma XlsxLayout(r: ExamReport, ef: (Float, Float) -> PyValue)
    ensures var ws := XlsxWrites(r, ef);
      && CellWrite(4, 1, NAME_CELL) in ws && CellWrite(4, 2, CellText(r.fullName)) in ws
      && CellWrite(5, 1, AGE_CELL) in ws
      && (AortaShown(r.panels) ==> CellWrite(7, 1, AORTA_TITLE) in ws)
      && (!AortaShown(r.panels) && LeftVentricleShown(r.panels) ==> CellWrite(7, 1, LEFT_VENTRICLE_TITLE) in ws)
      && (AortaShown(r.panels) && LeftVentricleShown(r.panels) ==> CellWrite(11, 1, LEFT_VENTRICLE_TITLE) in ws)
  {
    var head := XlsxHeaderWrites(r);
    var secs := XlsxSections(r.panels, ef);
    var tail := SectionsWrites(FIRST_SECTION_ROW, secs);
    XlsxHeaderShape(r);
    assert head[2] in XlsxWrites(r, ef) && head[3] in XlsxWrites(r, ef) && head[6] in XlsxWrites(r, ef);
    if |secs| > 0 {
      SectionTitleAtItsStart(FIRST_SECTION_ROW, secs, 0);
    }
    if AortaShown(r.panels) && LeftVentricleShown(r.panels) {
      SectionTitleAtItsStart(FIRST_SECTION_ROW, secs, 1);
      assert SectionStart(FIRST_SECTION_ROW, secs, 1) == 11;
    }
  }

  /** Four cells of one row, columns A to D, one write_cell each. */
  method WriteFour(ws: XlsxSheet, row: int, v: seq<string>)
    requires |v| == 4
    modifies ws
    ensures ws.writes == old(ws.writes) + RowWrites(row, v)
  {
    ws.WriteCell(row, 1, v[0]);
    ws.WriteCell(row, 2, v[1]);
    ws.WriteCell(row, 3, v[2]);
    ws.WriteCell(row, 4, v[3]);
  }

  /** The title rows and the patient block; the counter ends on the first section's row. */
  method WriteHeader(ws: XlsxSheet, r: ExamReport) returns (row: int)
    modifies ws
    ensures ws.writes == old(ws.writes) + XlsxHeaderWrites(r) && row == FIRST_SECTION_ROW
  {
    ws.WriteCell(1, 1, HOSPITAL);
    ws.WriteCell(2, 1, PROTOCOL_TITLE);
    ghost var titles := ws.writes;
    row := 4;
    WriteFour(ws, row, PatientRow(r));
    row := row + 1;
    WriteFour(ws, row, VitalsRow(r.fields));
    row := row + 2;
    assert ws.writes == titles + RowWrites(4, PatientRow(r)) + RowWrites(5, VitalsRow(r.fields));
  }

  /** Writes appended one batch after another, regrouped. */
  lemma AppendThree<T>(a: seq<T>, b: seq<T>, c: seq<T>)
    ensures a + (b + c) == a + b + c && [] + a == a
  {
  }

  lemma SectionsWritesOne(row: int, s: (string, seq<(string, string)>))
    ensures SectionsWrites(row, [s]) == SectionWrites(row, s.0, s.1)
  {
    assert [s][..0] == [];
  }

  lemma SectionsWritesTwo(row: int, s: (string, seq<(string, string)>), t: (string, seq<(string, string)>))
    ensures SectionsWrites(row, [s, t]) == SectionWrites(row, s.0, s.1) + SectionWrites(row + |s.1| + 2, t.0, t.1)
  {
    assert [s, t][..1] == [s];
    SectionsWritesOne(row, s);
    assert [s][..0] == [];
  }

  /** The Aorta section's writes, from row 7, when it is shown. */
  function XlsxAortaWrites(p: Panels): seq<CellWrite> {
    if AortaShown(p) then SectionWrites(FIRST_SECTION_ROW, AORTA_TITLE, XlsxAortaRows(p.aorta.value)) else []
  }

  /** The row the counter has reached when the Left-ventricle section starts. */
  function LeftVentricleRow(p: Panels): int {
    if AortaShown(p) then FIRST_SECTION_ROW + |XlsxAortaRows(p.aorta.value)| + 2 else FIRST_SECTION_ROW
  }

  /** The Left-ventricle section's writes, from the counter's row, when it is shown. */
  function XlsxLeftVentricleWrites(p: Panels, ef: (Float, Float) -> PyValue): seq<CellWrite> {
    if LeftVentricleShown(p)
    then SectionWrites(LeftVentricleRow(p), LEFT_VENTRICLE_TITLE, XlsxLeftVentricleRows(p.leftVentricle.value, ef))
    else []
  }

  /** The Excel protocol section by section: Aorta from row 7 when shown, then the Left
      ventricle from the row the counter reached. */
  lemma XlsxWritesBySection(r: ExamReport, ef: (Float, Float) -> PyValue)
    ensures XlsxWrites(r, ef) == XlsxHeaderWrites(r) + XlsxAortaWrites(r.panels) + XlsxLeftVentricleWrites(r.panels, ef)
  {
    var p := r.panels;
    if AortaShown(p) && LeftVentricleShown(p) {
      XlsxWritesBothShown(r, ef);
    } else if AortaShown(p) || LeftVentricleShown(p) {
      XlsxWritesOneShown(r, ef);
    } else {
      assert XlsxSections(p, ef) == [];
    }
  }

  lemma XlsxWritesBothShown(r: ExamReport, ef: (Float, Float) -> PyValue)
    requires AortaShown(r.panels) && LeftVentricleShown(r.panels)
    ensures XlsxWrites(r, ef) == XlsxHeaderWrites(r) + XlsxAortaWrites(r.panels) + XlsxLeftVentricleWrites(r.panels, ef)
  {
    var p := r.panels;
    var s, t := (AORTA_TITLE, XlsxAortaRows(p.aorta.value)), (LEFT_VENTRICLE_TITLE, XlsxLeftVentricleRows(p.leftVentricle.value, ef));
    assert XlsxSections(p, ef) == [s, t];
    SectionsWritesTwo(FIRST_SECTION_ROW, s, t);
    assert XlsxAortaWrites(p) == SectionWrites(FIRST_SECTION_ROW, s.0, s.1);
    assert LeftVentricleRow(p) == FIRST_SECTION_ROW + |s.1| + 2;
    assert XlsxLeftVentricleWrites(p, ef) == SectionWrites(FIRST_SECTION_ROW + |s.1| + 2, t.0, t.1);
    AppendThree(XlsxHeaderWrites(r), XlsxAortaWrites(p), XlsxLeftVentricleWrites(p, ef));
  }

  lemma XlsxWritesOneShown(r: ExamReport, ef: (Float, Float) -> PyValue)
    requires AortaShown(r.panels) != LeftVentricleShown(r.panels)
    ensures XlsxWrites(r, ef) == XlsxHeaderWrites(r) + XlsxAortaWrites(r.panels) + XlsxLeftVentricleWrites(r.panels, ef)
  {
    var p := r.panels;
    if AortaShown(p) {
      var s := (AORTA_TITLE, XlsxAortaRows(p.aorta.value));
      assert XlsxSections(p, ef) == [s];
      SectionsWritesOne(FIRST_SECTION_ROW, s);
    } else {
      var t := (LEFT_VENTRICLE_TITLE, XlsxLeftVentricleRows(p.leftVentricle.value, ef));
      assert XlsxSections(p, ef) == [t];
      SectionsWritesOne(FIRST_SECTION_ROW, t);
    }
  }

  /** The Aorta block of generate_xlsx: the section is written only when shown. */
  method WriteAortaSection(ws: XlsxSheet, row: int, p: Panels) returns (next: int)
    requires row == FIRST_SECTION_ROW
    modifies ws
    ensures ws.writes == old(ws.writes) + XlsxAortaWrites(p) && next == LeftVentricleRow(p)
  {
    next := row;
    if AortaShown(p) {
      next := WriteSection(ws, row, AORTA_TITLE, XlsxAortaRows(p.aorta.value));
    } else {
      assert old(ws.writes) + [] == ws.writes;
    }
  }

  /** The Left-ventricle block of generate_xlsx: the section is written only when shown. */
  method WriteLeftVentricleSection(ws: XlsxSheet, row: int, p: Panels, ef: (Float, Float) -> PyValue)
    requires row == LeftVentricleRow(p)
    modifies ws
    ensures ws.writes == old(ws.writes) + XlsxLeftVentricleWrites(p, ef)
  {
    if LeftVentricleShown(p) {
      var next := WriteSection(ws, row, LEFT_VENTRICLE_TITLE, XlsxLeftVentricleRows(p.leftVentricle.value, ef));
    } else {
      assert old(ws.writes) + [] == ws.writes;
    }
  }

  /** The two sections of generate_xlsx, one after the other from row 7. */
  method WriteSections(ws: XlsxSheet, p: Panels, ef: (Float, Float) -> PyValue)
    modifies ws
    ensures ws.writes == old(ws.writes) + XlsxAortaWrites(p) + XlsxLeftVentricleWrites(p, ef)
  {
    var row := WriteAortaSection(ws, FIRST_SECTION_ROW, p);
    WriteLeftVentricleSection(ws, row, p, ef);
  }

  /** generate_xlsx, up to saving the workbook: the cells it writes are XlsxContent. The name's
      cell is checked before the sheet is written; the workbook is discarded when it fails. */
  method GenerateXlsx(r: ExamReport, ef: (Float, Float) -> PyValue) returns (res: Result<seq<CellWrite>, Failure>)
    ensures res == XlsxContent(r, ef)
  {
    var name := CellText(r.fullName);
    var i := 0;
    while i < |name|
      invariant 0 <= i <= |name|
      invariant forall j :: 0 <= j < i ==> !IsIllegalCellChar(name[j])
    {
      if IsIllegalCellChar(name[i]) {
        return Err(IllegalCharacterError);
      }
      i := i + 1;
    }
    var ws := new XlsxSheet();
    var row := WriteHeader(ws, r);
    AppendThree(XlsxHeaderWrites(r), [], []);
    WriteSections(ws, r.panels, ef);
    XlsxWritesBySection(r, ef);
    return Ok(ws.writes);
  }
}
