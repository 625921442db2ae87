# LiveHeart in Dafny

LiveHeart is a Django web application for echocardiography protocols. A doctor logs in with an
e-mail and a password and then passes a second factor. The second factor is either a six-digit code
mailed to them, which expires after 300 seconds and can be re-sent only after a 60-second cooldown,
or a TOTP authenticator app. After that the doctor can:

- record a patient's examination: measurement panels, plus the 17-segment myocardial map that the
  page's script cycles through four states per click;
- export it as a Word, Excel or PDF protocol;
- list and delete their own patients.

This project models that core and proves what it promises:

- the two-factor session state machine and the `two_factor_required` guard (`sessions.dfy`,
  `accounts.dfy`, `decorators.dfy`, and the multi-request properties in `flow.dfy`);
- the e-mail code generator (`account_utils.dfy`);
- the report builders: `format_date`, `get_val`, the section gating of the Word protocol and its
  local-contractility summary, and the Excel writer with its running row counter (`reports.dfy`);
- the patient views (`patient_views.dfy`): form reading, the creation sequence inside one
  transaction, the export dispatch, the owner-scoped list, and the cascading delete, over the
  in-memory tables of `patient_models.dfy`;
- the myocardial-map click cycle, with JavaScript's `parseInt`, `%` and `String()` written out
  (`myocardial_map.dfy`);
- the pieces of Python text handling these rely on (`pytext.dfy`: `str.strip`, `int()`, `str()`
  of an int, `str.join`) and a sort and filter for the ORM's `filter`/`order_by` (`sorting.dfy`).

Each view that changes state is a method on a class: `Sessions.Session`,
`Accounts.DeviceTable`, `Accounts.UserTable`, `PatientViews.Database`,
`Reports.DocxDocument`, `Reports.XlsxSheet` and `MyocardialMap.SegmentMap`. Each such method is
proved equal to a function of the old state, and the properties are lemmas about that function.

Foreign calls are parameters, as is anything else the views receive from outside:

- Django's `authenticate`, `check_password`, `validate_password`, `make_password` and
  `User.get_session_auth_hash`;
- pyotp's `verify`;
- the SHA-256 inside `hash_code`;
- `secrets.randbelow(10)`, as a digit stream;
- `float()`, `parse_datetime`, the clock, the ejection-fraction arithmetic and whether xhtml2pdf
  succeeds (the `PatientViews.Env` datatype).

Decisions the code forces, followed here:

- `new_patient_view` never calls `to_int`. It applies `int()` directly to `regurgitaciya_1..4`
  and to the segment fields, so a non-numeric value raises `ValueError`. An exception that escapes
  `transaction.atomic` rolls back every insert of the request.
- The left ventricle stores `request.POST.get("hr")` without the `or None` the examination
  uses. An empty `hr` field therefore makes `int("")` raise, while the examination's `hr` would be
  `NULL` (`PatientViews.IntFieldReaders`).
- `generate_docx` looks up `STATES[s.state]`. A segment state above 3 (the form allows any
  non-negative integer) raises `KeyError` inside the transaction, so the whole creation is undone
  (`PatientViews.NewPatientDocxOutcome`).
- A name with a line break makes every download header raise `BadHeaderError`. A control
  character that XML cannot carry makes the Word export raise `ValueError`, and one openpyxl
  refuses makes the Excel export raise `IllegalCharacterError`. Each of these happens inside the
  transaction, so the creation is undone as well (`PatientViews.ExportDispatch`,
  `PatientViews.NewPatientDocxOutcome`).
- An integer field beyond 64 bits is read by `int()` but refused by the SQLite driver when the
  row is inserted, with the same rollback (`PatientViews.Stored`).
- Of several users sharing an e-mail, `login_view` checks the password of the one with the lowest
  id (`Accounts.FirstByEmail`).
- The cooldown test is `if sent_at`, so a code sent at time 0 counts as never sent.
- The summary compares `norm_count` with the literal 17, not with the number of segments.
- The same form field `max_gradient` is stored in the aortic-valve, mitral-valve and
  pulmonary-artery panels, exactly as the view reads it.

## Model

| member | source | states |
|---|---|---|
| Sessions.LoggedIn | liveheart/accounts/views.py:121 | `login(request, user, backend)` flushes the session exactly when it already records another user's id or, under a non-empty session auth hash, a different hash; it then records the id as text, the backend and the hash, keeps every other key of a session it does not flush, adds no key besides those three, and keeps the session well typed |
| Sessions.LoginIsIdempotent | liveheart/accounts/views.py:149 | logging the same user in again, with the same backend and hash, leaves the session as the first login left it |
| Sessions.Session.Flush | liveheart/accounts/views.py:24 | `session.flush()` leaves an empty map |
| Sessions.Session.Set | liveheart/accounts/views.py:46 | `session[key] = v` updates exactly that key |
| Sessions.Session.Pop | liveheart/accounts/views.py:116-118 | `session.pop(key, None)` removes exactly that key, present or not |
| Sessions.Session.Login | liveheart/accounts/views.py:149 | the session side of `login()`, the flush test and then the three writes, is `LoggedIn` of the old session |
| AccountUtils.GenerateCode | liveheart/accounts/utils.py:5-6 | the code has exactly `length` characters (so length 0 gives ""), each a decimal digit, the i-th being the i-th `randbelow(10)` draw |
| AccountUtils.CodeDigitsOfGenerateCode | liveheart/accounts/utils.py:6 | reading the code back digit by digit gives exactly the draws, in order |
| Decorators.TwoFactorRequired | liveheart/accounts/decorators.py:5-15 | no user: redirect to `LOGIN_URL`; a user without a truthy `is_2fa_verified`: redirect to `accounts:verify`; the view runs, on its own arguments, iff both checks pass; authentication is checked first |
| Accounts.FirstByEmail | liveheart/accounts/views.py:30 | `filter(email=...).first()` on an unordered queryset orders by primary key: the row with the lowest id among those with that e-mail (the earliest on equal ids), or none when no row has it |
| Accounts.UserById | liveheart/accounts/views.py:63 | `User.objects.get(id=...)`: a row with that id, or none when no row has it |
| Accounts.LoginStep | liveheart/accounts/views.py:21-54 | a GET renders the page and keeps the session; a POST looks at the user `FirstByEmail` selects: with no such user, or a password that does not authenticate them, it renders the credentials error with an empty session; otherwise it leaves `pre_totp_user_id` alone when that user has a confirmed device, and `pre_2fa_user_id` with `is_2fa_verified = False` when not; no mail is sent |
| Accounts.LoginView | liveheart/accounts/views.py:21-54 | the method's response and new session are those of `LoginStep`, and the session stays well typed |
| Accounts.Cooldown | liveheart/accounts/views.py:67-68 | never negative; 0 when no truthy `2fa_created_at` is stored; at most 60 when `now >= sent_at`; 0 exactly when 60 seconds have passed, otherwise `60 - (now - sent_at)` |
| Accounts.CheckEmailCode | liveheart/accounts/views.py:100-112 | a code is accepted only if a hash is stored, it is at most 300 seconds old (an absent time reads as 0), and the submitted code hashes to the stored hash |
| Accounts.VerifyOutcome | liveheart/accounts/views.py:103-124 | every verdict other than `Accepted` leaves the session unchanged; the session stays well typed |
| Accounts.EmailStep | liveheart/accounts/views.py:57-126 | `verify_2fa_view` keeps the session well typed, and a step that sends mail adds exactly the hash and time keys |
| Accounts.VerifyEmailView | liveheart/accounts/views.py:57-126 | the method's response, session and mail are those of `EmailStep` |
| Accounts.VerifyAction | liveheart/accounts/views.py:98-124 | the three checks in source order, then three pops, `login()` and `is_2fa_verified = True`; the result is `VerifyOutcome` of `CheckEmailCode` |
| Accounts.TotpStep | liveheart/accounts/views.py:129-159 | `verify_totp_view` keeps the session well typed and sends no mail |
| Accounts.VerifyTotpView | liveheart/accounts/views.py:129-159 | the method's response and session are those of `TotpStep` |
| Accounts.TotpSetupView | liveheart/accounts/views.py:161-197 | the device is fetched or created unconfirmed; a confirmed one is left as it is; `confirmed` goes false to true only on a POST whose code verifies; no other user's device changes; the response is the dashboard, the error page or the setup page accordingly |
| Accounts.DisableTotpView | liveheart/accounts/views.py:242-268 | the device is deleted iff it is confirmed and a POST carries a non-empty code that verifies; otherwise the table is unchanged; each outcome has its response and message |
| Accounts.SavePassword | liveheart/accounts/views.py:225-226 | `save()` overwrites exactly the rows with the user's id with the new hash and keeps every other row, inserting the user when no row has that id |
| Accounts.ErrorMessages | liveheart/accounts/views.py:229-231 | one error message per validation error, in order |
| Accounts.ProfileView | liveheart/accounts/views.py:207-240 | the password changes iff it is a `change_password` POST whose old password checks, whose new password equals the confirmation, and which passes validation; the messages follow the same order of checks |
| TwoFactorFlow.FreshLoginIsGated | liveheart/accounts/views.py:42-52 | no session a login POST leaves behind gets through `two_factor_required` |
| TwoFactorFlow.LoginFailureIsUniform | liveheart/accounts/views.py:24-37 | an unknown e-mail and a wrong password give the same page, the same error and an empty session |
| TwoFactorFlow.SendDuringCooldownIsRefused | liveheart/accounts/views.py:71-77 | while the cooldown runs, "send" keeps the session, sends no mail and reports the remaining seconds |
| TwoFactorFlow.SendStoresHashAndTime | liveheart/accounts/views.py:79-95 | a send that goes through stores `hash_code(code)` and `now`, and mails that code to the user |
| TwoFactorFlow.ResendWithinCooldownIsRefused | liveheart/accounts/views.py:67-84 | after a send at time t (t non-zero), a second send within 60 seconds is refused whatever it would draw |
| TwoFactorFlow.RejectedVerifyLeavesSession | liveheart/accounts/views.py:100-112 | a rejected verify (nothing requested, expired, wrong code) leaves the session unchanged |
| TwoFactorFlow.AcceptedVerifyClearsCode | liveheart/accounts/views.py:116-124 | an accepted verify removes the hash, its time and `pre_2fa_user_id`, sets `is_2fa_verified = True` and logs the user in: the session records their id, `ModelBackend` and their session auth hash |
| TwoFactorFlow.MailedCodeVerifiesUntilExpiry | liveheart/accounts/views.py:80-112 | the mailed code is accepted iff it is submitted at most 300 seconds after it was sent (exactly 300 is accepted); this uses that `hash_code` is a function |
| TwoFactorFlow.SendThenVerifyAdmits | liveheart/accounts/views.py:71-124 | from a session waiting for the mailed code: send, then submit that code in time, and the guard admits the user |
| TwoFactorFlow.EmailLoginIsPending | liveheart/accounts/views.py:48-52 | a login without a confirmed device leaves a session waiting for the mailed code of an existing user |
| TwoFactorFlow.EmailPathReachesDashboard | liveheart/accounts/views.py:21-124 | log in, send, verify within 300 seconds: the guard then lets the request through |
| TwoFactorFlow.TotpVerifyOutcome | liveheart/accounts/views.py:144-157 | a correct app code sets `is_2fa_verified = True`, drops `pre_totp_user_id` and records the user's id and session auth hash; a wrong one changes nothing |
| TwoFactorFlow.TotpNeedsConfirmedDevice | liveheart/accounts/views.py:131-142 | without a pending user whose device is confirmed, the TOTP view redirects to login and changes nothing |
| PyText.StripLeftMeaning | liveheart/patients/views.py:19 | `lstrip` removes a whitespace prefix and stops at the first non-space |
| PyText.StripRightMeaning | liveheart/patients/views.py:19 | `rstrip` removes a whitespace suffix and stops at the last non-space |
| PyText.StripOfPadded | liveheart/patients/views.py:19 | `strip()` removes exactly the surrounding whitespace |
| PyText.NatToString | liveheart/patients/utils.py:103 | `str()` of a natural number is a non-empty run of digits without a leading zero |
| PyText.ParseInt | liveheart/patients/views.py:66 | `int()` of a str raises on text that is only whitespace (and on the empty text) |
| PyText.ParseIntOfIntToString | liveheart/patients/views.py:130 | `int(str(i)) == i`, also with whitespace around it |
| PyText.GroupValueOfNatToString | liveheart/patients/views.py:130 | the digits `str()` writes form a literal whose value is the number |
| PyText.Join | liveheart/patients/utils.py:140 | `", ".join` of nothing is "", and of one item is that item |
| Sorting.Filter | liveheart/patients/views.py:155 | `filter()` keeps only rows that satisfy the condition, keeps every such row, and keeps a table all of whose rows satisfy it |
| Sorting.FilterMultiset | liveheart/patients/views.py:155 | filtering keeps exactly the multiplicity of every kept row and drops the others |
| Sorting.FilterKeepsSorted | liveheart/patients/utils.py:124 | filtering a table ordered by a key keeps it ordered |
| Sorting.FilterKeepsPairwise | liveheart/patients/models.py:15 | a relation between each row and every later row survives filtering, which is how a delete keeps keys increasing |
| Sorting.FilterPartition | liveheart/patients/utils.py:130-134 | a row is kept by exactly one of a condition and its negation |
| Sorting.SortBy | liveheart/patients/views.py:155 | `order_by()` returns a permutation of the rows, sorted by the key |
| Sorting.Insert | liveheart/patients/views.py:155 | inserting adds exactly one occurrence of the row |
| Sorting.InsertKeepsSorted | liveheart/patients/views.py:155 | inserting into a sorted table keeps it sorted |
| Sorting.LexLeTotal | liveheart/patients/views.py:155 | the name order compares every two names |
| Sorting.LexLeTransitive | liveheart/patients/views.py:155 | the name order is transitive |
| Reports.Pad2 | liveheart/patients/utils.py:22 | `%d` and `%m` give two digits |
| Reports.FormatDate | liveheart/patients/utils.py:15-22 | "-" for a falsy argument, a non-empty str returned unchanged, a datetime as `dd.mm.Y` with dots at positions 2 and 5 |
| Reports.FormatDateRoundTrip | liveheart/patients/utils.py:22 | reading `dd.mm.YYYY` back gives the date that was formatted |
| Reports.FormatDateFixedWidth | liveheart/patients/utils.py:22 | for a four-digit year the text has exactly ten characters |
| Reports.GetValMeaning | liveheart/patients/utils.py:25-29 | "-" iff the value is None or ""; never empty; otherwise the value, a space and the unit, so with no unit it ends in a space |
| Reports.Abnormal | liveheart/patients/utils.py:133-134 | the segments that get a label keep known states |
| Reports.Labels | liveheart/patients/utils.py:134 | one `Сегмент n: STATE` label per abnormal segment, in order |
| Reports.Summarize | liveheart/patients/utils.py:124-134 | the loop fails, with a `KeyError`, iff some state is not a key of STATES |
| Reports.SummarizeSnoc | liveheart/patients/utils.py:130-134 | one more segment is one more iteration of the loop |
| Reports.SummarizeSegments | liveheart/patients/utils.py:124-134 | the loop that counts normal segments and collects the other labels computes `Summarize` |
| Reports.SummaryAccountsForEverySegment | liveheart/patients/utils.py:130-134 | `norm_count + len(bad_segments)` equals the number of segments |
| Reports.Ordered | liveheart/patients/utils.py:124 | `order_by('segment_number')` is a permutation sorted by number |
| Reports.AbnormalInAscendingOrder | liveheart/patients/utils.py:124-134 | the abnormal segments, hence their labels, come in ascending `segment_number` order |
| Reports.KnownStatesOfOrdered | liveheart/patients/utils.py:124-134 | the `KeyError` does not depend on the order of the segments |
| Reports.NoDisordersIffAllNormal | liveheart/patients/utils.py:136-140 | for 17 segments the "no disorders" text appears iff every segment is normal; otherwise the header and the joined list appear |
| Reports.DocxHeader | liveheart/patients/utils.py:43-75 | seven paragraphs precede the sections |
| Reports.Section | liveheart/patients/utils.py:90-119 | a section's heading and table appear iff its panel is shown |
| Reports.DocxHeadings | liveheart/patients/utils.py:79-122 | the protocol's headings are exactly the shown sections' titles and the contractility title |
| Reports.DocxSectionGating | liveheart/patients/utils.py:90-107 | the Aorta, Aortic-valve and Left-ventricle sections appear iff that panel exists and is enabled; the contractility heading always appears |
| Reports.DocxFailure | liveheart/patients/utils.py:57-134 | the Word export fails iff the name holds a character outside the Char production of XML 1.0 (then with lxml's `ValueError`) or some segment's state is outside 0..3 (then with a `KeyError`) |
| Reports.AttachmentHeaderAllowed | liveheart/patients/utils.py:148 | the header `attachment; filename="Echo_<name>.<ext>"` is refused iff the name holds a line feed or a carriage return |
| Reports.DocxDocument.AddParagraph | liveheart/patients/utils.py:43 | appends one paragraph |
| Reports.DocxDocument.AddHeading | liveheart/patients/utils.py:79 | appends one heading |
| Reports.DocxDocument.AddTable | liveheart/patients/utils.py:80 | appends a table of n blank two-cell rows |
| Reports.DocxDocument.SetCell | liveheart/patients/utils.py:85-87 | sets one cell of the last table and nothing else |
| Reports.BlankRows | liveheart/patients/utils.py:80 | n rows of two empty cells |
| Reports.FillRow | liveheart/patients/utils.py:83-87 | filling row i of a table filled up to i fills it up to i + 1 |
| Reports.CreateSectionTable | liveheart/patients/utils.py:78-87 | a level-3 heading, then a table with exactly `len(data_pairs)` rows, row i holding label i and value i |
| Reports.WriteDocxHeader | liveheart/patients/utils.py:43-75 | writes exactly the header paragraphs |
| Reports.WriteGatedSection | liveheart/patients/utils.py:90-94 | writes a section's heading and table only when it is shown |
| Reports.WriteDocxSections | liveheart/patients/utils.py:89-119 | writes exactly the three gated sections, in order |
| Reports.GenerateDocx | liveheart/patients/utils.py:34-141 | the body `generate_docx` builds is `DocxContent`, or its `ValueError` or `KeyError` |
| Reports.XlsxSheet.WriteCell | liveheart/patients/utils.py:186-191 | appends one cell assignment |
| Reports.DistinctAppend | liveheart/patients/utils.py:206-224 | writes on disjoint row ranges, each without a repeated cell, have no repeated cell together |
| Reports.DataWrites | liveheart/patients/utils.py:218-223 | two cell writes per data row |
| Reports.DataWritesEntries | liveheart/patients/utils.py:218-223 | data row k writes its label in column A and its value in column B of row `row + k` |
| Reports.DataWritesDistinct | liveheart/patients/utils.py:218-223 | the data rows stay within their rows and no cell is written twice |
| Reports.SectionWrites | liveheart/patients/utils.py:206-224 | a section writes its title in column A of its first row, then its data |
| Reports.SectionWritesShape | liveheart/patients/utils.py:206-224 | a section occupies rows `row .. row + len(data)` and writes no cell twice |
| Reports.DataWritesSnoc | liveheart/patients/utils.py:218-223 | one more data row is one more iteration of the loop |
| Reports.WriteRow | liveheart/patients/utils.py:219-220 | label in column A, value in column B |
| Reports.WriteSection | liveheart/patients/utils.py:206-224 | `write_section` advances the counter by exactly `len(data) + 2` and writes exactly `SectionWrites` |
| Reports.SectionStart | liveheart/patients/utils.py:206-224 | section k starts at least 2k rows below the first section |
| Reports.SectionsWritesShape | liveheart/patients/utils.py:206-245 | consecutive sections occupy the rows the counter passes and write no cell twice |
| Reports.SectionStartPrefix | liveheart/patients/utils.py:206-245 | where a section starts depends only on the sections before it |
| Reports.RowWrites | liveheart/patients/utils.py:193-202 | values written left to right from column A |
| Reports.RowWritesDistinct | liveheart/patients/utils.py:193-202 | one row's writes stay on that row and repeat no cell |
| Reports.PatientRow | liveheart/patients/utils.py:193-196 | row 4 holds the name caption and then the name as openpyxl keeps it |
| Reports.CellText | liveheart/patients/utils.py:194 | an openpyxl cell keeps at most the first 32767 characters of a text, and the whole of a shorter one |
| Reports.XlsxFailure | liveheart/patients/utils.py:194 | the Excel export fails iff one of the name's first 32767 characters is a control character other than tab, line feed and carriage return, and then with `IllegalCharacterError`; a name of at most 32767 characters is written whole at row 4, column B |
| Reports.VitalsRow | liveheart/patients/utils.py:199-202 | row 5 holds four cells, the age caption first |
| Reports.SectionTitleAtItsStart | liveheart/patients/utils.py:206-215 | section k's title is in column A of the row the counter reached for it |
| Reports.XlsxHeaderShape | liveheart/patients/utils.py:173-203 | the titles and the patient block lie on rows 1 to 6 and repeat no cell; the name is at row 4, the age at row 5 |
| Reports.XlsxCellsWrittenOnce | liveheart/patients/utils.py:173-245 | no cell of the Excel protocol is written twice |
| Reports.XlsxLayout | liveheart/patients/utils.py:184-203 | the patient block starts on row 4; the first shown section starts on row 7; with both shown the Left-ventricle title is on row 11 |
| Reports.WriteFour | liveheart/patients/utils.py:193-196 | four write_cell calls make one row |
| Reports.WriteHeader | liveheart/patients/utils.py:173-203 | writes the titles and the patient block, and leaves the counter at 7 |
| Reports.AppendThree | liveheart/patients/utils.py:226-245 | appending batch after batch regroups |
| Reports.SectionsWritesOne | liveheart/patients/utils.py:206-224 | one section written from a row |
| Reports.SectionsWritesTwo | liveheart/patients/utils.py:206-245 | the second section starts where the counter left the first |
| Reports.XlsxWritesBySection | liveheart/patients/utils.py:226-245 | the protocol is the header, then the Aorta from row 7 when shown, then the Left ventricle from the counter's row when shown |
| Reports.XlsxWritesBothShown | liveheart/patients/utils.py:226-245 | the same, when both sections are shown |
| Reports.XlsxWritesOneShown | liveheart/patients/utils.py:226-245 | the same, when exactly one is shown |
| Reports.WriteAortaSection | liveheart/patients/utils.py:227-231 | writes the Aorta section only when shown, and returns the counter the Left ventricle starts from |
| Reports.WriteLeftVentricleSection | liveheart/patients/utils.py:234-245 | writes the Left-ventricle section only when shown |
| Reports.WriteSections | liveheart/patients/utils.py:226-245 | the two gated sections, one after the other from row 7 |
| Reports.GenerateXlsx | liveheart/patients/utils.py:154-245 | the cells `generate_xlsx` writes are `XlsxContent`: `XlsxWrites`, or the `IllegalCharacterError` of the name's cell |
| PatientViews.ToIntMeaning | liveheart/patients/views.py:17-21 | `to_int` is `int()` with the default in place of every failure: it is the default for None, "" and whitespace-only text, and for text `int()` refuses |
| PatientViews.ToIntOfIntToString | liveheart/patients/views.py:17-21 | `to_int` reads back `str()` of an integer, with whitespace around it |
| PatientViews.IntOf | liveheart/patients/views.py:66 | `int()` succeeds exactly on the text it parses, and otherwise raises `ValueError` |
| PatientViews.Stored | liveheart/patients/views.py:61-67 | binding an integer into an INSERT succeeds, unchanged, exactly on 64-bit values, and raises `OverflowError` on every other |
| PatientViews.ReadExam | liveheart/patients/views.py:41-50 | an examination row is inserted only with an age and a heart rate that fit 64 bits |
| PatientViews.WideAgeOverflows | liveheart/patients/views.py:44 | an age `int()` reads but that does not fit 64 bits fails the examination's insert with `OverflowError` |
| PatientViews.IntFieldReaders | liveheart/patients/views.py:44-79 | an absent field gives 0 or NULL; an empty field is NULL through `or None` but raises through `int()` and through the bare `hr` |
| PatientViews.FullName | liveheart/patients/views.py:29-32 | the insert fails with `IntegrityError` iff `full_name` is absent (NOT NULL) |
| PatientViews.CommaToDotMeaning | liveheart/patients/views.py:13 | `replace(',', '.')` keeps the length and every other character, and leaves no comma |
| PatientViews.CommaToDotIdempotent | liveheart/patients/views.py:13 | replacing twice is replacing once |
| PatientViews.ToFloatAcceptsCommas | liveheart/patients/views.py:11-15 | a decimal comma reads like a decimal point; absent and empty fields are NULL |
| PatientViews.AortaEnabledIffTicked | liveheart/patients/views.py:53-68 | the aorta's `is_enabled` is true iff `aorta_enabled == "on"`; the aortic valve and left ventricle keep the default True |
| PatientViews.SegmentState | liveheart/patients/views.py:126-130 | an absent `segment_i` is 0; a state is stored exactly when `int()` reads it and it lies in 0..2^63-1, and then unchanged; beyond 64 bits the insert raises `OverflowError`, below 0 the CHECK constraint of the PositiveSmallIntegerField raises `IntegrityError` |
| PatientViews.ReadAll | liveheart/patients/views.py:125-131 | n reads give n values |
| PatientViews.ReadAllMeaning | liveheart/patients/views.py:125-131 | value k is read k + 1, and reading fails iff one read fails |
| PatientViews.SegmentStates | liveheart/patients/views.py:125-131 | n segments give n states |
| PatientViews.SegmentStatesReadAll | liveheart/patients/views.py:125-131 | the segment loop reads each segment in turn |
| PatientViews.SegmentStatesMeaning | liveheart/patients/views.py:125-131 | state k is segment k + 1's, and the loop fails iff one segment's read fails |
| PatientViews.SegmentStatesNonNegative | liveheart/patients/views.py:130 | every state read is non-negative |
| PatientViews.SegmentRows | liveheart/patients/views.py:127-131 | row k is segment number k + 1 of the examination with state k |
| PatientViews.SegmentRowsSnoc | liveheart/patients/views.py:127-131 | one more iteration inserts the next numbered row |
| PatientViews.ReadFormStates | liveheart/patients/views.py:29-131 | a form that reads holds the submitted name, the panels and seventeen states |
| PatientViews.ReadFormOk | liveheart/patients/views.py:29-131 | the form reads when each of its parts does |
| PatientViews.Database.CreatePatient | liveheart/patients/views.py:29-32 | inserts one patient with the next key and nothing else |
| PatientViews.Database.CreateExam | liveheart/patients/views.py:41-50 | inserts one examination with the next key and nothing else |
| PatientViews.Database.CreatePanels | liveheart/patients/views.py:53-122 | records the seven one-to-one panels of the examination |
| PatientViews.Database.CreateSegment | liveheart/patients/views.py:127-131 | inserts one segment row |
| PatientViews.Database.Restore | liveheart/patients/views.py:27 | the rollback restores the snapshot |
| PatientViews.Database.DeletePatient | liveheart/patients/views.py:170 | `patient.delete()` is the cascade |
| PatientViews.CreateSegments | liveheart/patients/views.py:125-131 | the loop succeeds iff every segment reads, and then it inserts exactly the seventeen numbered rows |
| PatientViews.InsertAll | liveheart/patients/views.py:27-131 | the inserts in source order give `Create`; on an exception the tables are as before |
| PatientViews.NewPatientView | liveheart/patients/views.py:24-148 | the tables and the response are those of `NewPatientStep` |
| PatientViews.NewPatientOnlyOnPost | liveheart/patients/views.py:26-148 | a GET (or no user) changes no table |
| PatientViews.ExportFailureRollsBack | liveheart/patients/views.py:134-146 | an export fails only by rolling back; otherwise it commits |
| PatientViews.NewPatientFailureRollsBack | liveheart/patients/views.py:27-146 | every server error leaves the tables as they were; a failed insert is a server error; otherwise the inserts commit |
| PatientViews.CreateAddsOnePatient | liveheart/patients/views.py:29-50 | creation adds one patient owned by the user with the submitted name, and one examination of it |
| PatientViews.CreateAddsSeventeenSegments | liveheart/patients/views.py:125-131 | creation adds exactly 17 segments of the new examination, numbered 1..17 in order, each with its field's state or 0 when it is absent |
| PatientViews.ExportDispatch | liveheart/patients/views.py:134-146 | a file is returned only for docx, xlsx or pdf, and never for a name with a line break; the Excel file is returned, with the inserts kept, iff the name passes openpyxl's cell check and the header check, and otherwise the inserts are rolled back; a PDF xhtml2pdf fails on commits with the error text, a rendered one is returned iff the header is accepted; any other value commits and redirects to the dashboard |
| PatientViews.PatientIdsSnoc | liveheart/patients/views.py:29 | the keys after an insert are the old keys and the new one |
| PatientViews.ExamIdsSnoc | liveheart/patients/views.py:41 | the keys after an insert are the old keys and the new one |
| PatientViews.AddRowsKeepsValid | liveheart/patients/views.py:29-131 | inserting a form's rows keeps keys unique and fresh, foreign keys resolving and no state negative |
| PatientViews.CreateKeepsValid | liveheart/patients/views.py:27-131 | creation keeps the schema's guarantees |
| PatientViews.AddRowsSegmentsOf | liveheart/patients/views.py:137 | a new examination owns exactly the rows just inserted |
| PatientViews.ReportReadsNewSegments | liveheart/patients/views.py:137 | after `refresh_from_db` the report reads exactly the seventeen new rows |
| PatientViews.NothingKept | liveheart/patients/views.py:137 | filtering with a condition no row meets gives nothing |
| PatientViews.NewPatientDocxOutcome | liveheart/patients/views.py:136-139 | the Word export fails, and the whole creation is undone, iff some submitted state is above 3, or the name holds a character XML cannot carry or a line break; otherwise a docx file is returned and the inserts are kept |
| PatientViews.NewSegmentsUnknown | liveheart/patients/views.py:137-139 | a state the report cannot name exists iff a submitted state is above 3 |
| PatientViews.PatientListIsOwnSorted | liveheart/patients/views.py:155 | the list holds exactly the user's patients, each as often as in the table, sorted by `full_name` |
| PatientViews.DeletePatientView | liveheart/patients/views.py:161-172 | the method's tables and response are those of `DeleteStep` |
| PatientViews.DeleteOnlyOwnOnPost | liveheart/patients/views.py:163-172 | a GET, a missing id or another user's patient changes nothing |
| PatientViews.CascadeRemovesEverything | liveheart/patients/models.py:15 | after the delete no patient, examination, panel or segment refers to the removed patient |
| PatientViews.CascadeKeepsOthers | liveheart/patients/views.py:170 | every other patient, examination, panel and segment is kept, and so are the key counters |
| PatientViews.KeptPatientId | liveheart/patients/views.py:170 | a kept patient's key can still be referred to |
| PatientViews.KeptExamId | liveheart/patients/views.py:170 | a kept examination's key can still be referred to |
| PatientViews.ExamWithId | liveheart/patients/models.py:15 | a key of the examination table names one of its rows |
| PatientViews.CascadeKeepsKeys | liveheart/patients/views.py:170 | after the delete the keys stay increasing and below the counters |
| PatientViews.CascadeKeepsReferences | liveheart/patients/models.py:102 | after the delete every foreign key still names an existing row |
| PatientViews.CascadeKeepsValid | liveheart/patients/models.py:15 | deleting keeps the schema's guarantees |
| MyocardialMap.CharValue | liveheart/patients/static/patients/js/miocardial_map.js:15 | a character's digit value is at most 36 |
| MyocardialMap.DigitPrefix | liveheart/patients/static/patients/js/miocardial_map.js:15 | `parseInt` reads the longest run of digits |
| MyocardialMap.DigitsValueOfNatToString | liveheart/patients/static/patients/js/miocardial_map.js:15 | the decimal digits of n have the value n |
| MyocardialMap.DigitPrefixOfDigits | liveheart/patients/static/patients/js/miocardial_map.js:15 | a run of digits followed by a non-digit is read up to the non-digit |
| MyocardialMap.UnsignedPartOfNat | liveheart/patients/static/patients/js/miocardial_map.js:15 | the decimal text of m, followed by nothing or by a character that is neither a digit nor `x`, reads as m |
| MyocardialMap.TrimStartOfSpaces | liveheart/patients/static/patients/js/miocardial_map.js:15 | leading white space is skipped up to the first other character |
| MyocardialMap.JsParseIntOfString | liveheart/patients/static/patients/js/miocardial_map.js:15-21 | `parseInt` reads back `String(n)` for every integer, with white space before it and after it anything that is neither a digit nor `x` |
| MyocardialMap.JsRem4 | liveheart/patients/static/patients/js/miocardial_map.js:18 | JavaScript's `% 4` lies in (-4, 4), equals the Euclidean remainder for a non-negative operand and follows a negative operand's sign |
| MyocardialMap.NextStateInRange | liveheart/patients/static/patients/js/miocardial_map.js:18 | a click gives NaN exactly from NaN; from a number it gives -3..3, and from -1 or more it gives 0..3 |
| MyocardialMap.ClickOfString | liveheart/patients/static/patients/js/miocardial_map.js:15-21 | a click on the text of n writes the text of `(n + 1) % 4` |
| MyocardialMap.ClickTextInRange | liveheart/patients/static/patients/js/miocardial_map.js:15-21 | a click on "0".."3", or on a missing or empty attribute, writes one of "0".."3", and a different one from the text before |
| MyocardialMap.FourClicksRestore | liveheart/patients/static/patients/js/miocardial_map.js:18 | four clicks on a segment in a state 0..3 bring back its text |
| MyocardialMap.StepCycle | liveheart/patients/static/patients/js/miocardial_map.js:18 | four steps of `(x + 1) % 4` are the identity on 0..3 |
| MyocardialMap.NaNIsFixed | liveheart/patients/static/patients/js/miocardial_map.js:15-21 | unreadable text makes every click write "NaN", and "NaN" stays |
| MyocardialMap.MissingStateIsZero | liveheart/patients/static/patients/js/miocardial_map.js:15 | a missing or empty `data-state` reads as 0, so the first click writes "1" |
| MyocardialMap.InitialText | liveheart/patients/static/patients/js/miocardial_map.js:10 | `value \|\| "0"` is never empty and keeps a non-empty value |
| MyocardialMap.InitStates | liveheart/patients/static/patients/js/miocardial_map.js:4-11 | a segment with a hidden input takes its value or "0"; any other segment keeps its attribute |
| MyocardialMap.InitMirrorsInputs | liveheart/patients/static/patients/js/miocardial_map.js:9-11 | after loading, a segment agrees with its non-empty input, and its first click writes a state text when the input held one |
| MyocardialMap.SegmentMap.Init | liveheart/patients/static/patients/js/miocardial_map.js:4-11 | the load handler changes only the `data-state` attributes, to `InitStates` |
| MyocardialMap.SegmentMap.Click | liveheart/patients/static/patients/js/miocardial_map.js:13-27 | a click changes only that segment's `data-state` and its hidden input, and afterwards the input equals the new state |

## Left out

- Rendering is left out. This covers templates, the QR code (`utils_qr.py`), python-docx styles
  and openpyxl fonts, borders, merged ranges and column widths. Only the text content and cell
  positions are modelled.
- PDF generation through xhtml2pdf is a parameter: `Env.pdfRenders` says whether it succeeds.
- `send_mail` is modelled by the `Mail` value the view returns. Delivery and `fail_silently` are
  left out.
- `authenticate`, `check_password`, `validate_password`, `make_password`,
  `get_session_auth_hash`, pyotp's verification window and SHA-256 are function parameters. `hash_code` is therefore any function, which is
  exactly the determinism the equality check relies on.
- `logout_view` and `dashboard` are not modelled. Each is a single call into Django; the guard on
  `dashboard` is `Decorators.TwoFactorRequired`.
- `Decorators.TwoFactorRequired`: `login_required`, which guards the other views, is modelled as
  a user argument of `None` that redirects to `LOGIN_URL`. The `next` query parameter is not
  modelled.
- Floating point is left out. `float()`, the ejection fraction with its `round` and every
  formula of `new_patient.js` are parameters. A float column keeps the text `str()` would print.
- Time zones are left out: `timezone.now()`, `make_aware` and the time of day. A datetime is its
  calendar date.
- `PatientViews.ExamDate` takes `parse_datetime` as a parameter.
- The DEBUG `print` of the export type has no effect on the outcome and is not modelled.
- SQLite does not enforce `max_length=255` on `full_name`, and the model does not either.
- The upper bound of a PositiveSmallIntegerField is not checked by SQLite and is not modelled.
  The driver's 64-bit range and the lower bound are (`PatientViews.SegmentState`).
- Auto-increment ids are unbounded naturals; the 64-bit limit of a rowid is not modelled.
- The bytes of the exported files are not modelled. `PatientViews.Export` reads the outcome of
  each generator from `Reports.DocxContent` and `Reports.XlsxContent`, which the generator
  methods are proved to compute.
- `Reports.DocxContent` checks only the name run against XML, and `Reports.XlsxContent` truncates
  and checks only the name's cell. Every other run and cell holds a constant, a date or a number
  text, which is short and free of control characters.
- `Sessions.KeepsSession` compares the recorded id as text, where Django parses it back into an
  integer first. The two agree on every id `login()` wrote. Rotating the session key when no user
  is recorded yet leaves the data unchanged and is not modelled.
- `PyText.ParseInt` accepts ASCII digits only. Python's `int()` also accepts every other Unicode
  decimal digit (category Nd, such as Arabic-Indic or full-width digits), which the model reads as
  a `ValueError` instead.
- `PyText.ParseInt` does not model the 4300-digit limit of `int()` (Python 3.11 and later). Such a
  value does not fit any column, so in the view it fails either way, with `OverflowError` here
  instead of `ValueError`. In `to_int` the source yields the default where the model yields the
  number.
- `PatientViews.IntOf`, `PatientViews.ToIntMeaning` and `PatientViews.SegmentState` inherit the
  digit set of `PyText.ParseInt`. A field written in non-ASCII decimal digits is stored by the
  source and refused by the model.
- `MyocardialMap.JsParseInt` models JavaScript numbers as unbounded integers or NaN. The rounding
  of integers above 2^53 is left out; the page only ever stores 0..3.
- `MyocardialMap.SegmentMap`: the DOM is a sequence of `data-state` attributes and a map from
  element ids to input values. CSS colouring and the event loop are presentation and are left out.
- `PyText.IsSpace` lists the characters for which Python's `str.isspace()` holds; no Unicode
  normalisation is applied, as `str.strip` applies none.
- `Sorting.SortBy`: the database collation is modelled as code-point order on `full_name`.
