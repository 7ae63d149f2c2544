# KKU-SOETR portal core in Dafny

This project models the core of the K.K. University School of Education,
Training & Research (SOETR) portal, a React/TypeScript single-page
application for teacher-education programmes. The modelled parts are:

- **Programme policy** (`constants.ts`): the programmes and the session
  pools, the years and semesters of each programme, and the
  semester-or-annual rule. It also covers the examination months, years
  and natures, the attendance calendar, the internship school tables and
  the curriculum table.
- **Shared basic-information validator** (`validateBasicInfo`).
- **Examination form**: the course lookup, the elective handler, the
  completeness check, the normalisation effects, the processed courses
  and the entry / verify / success views.
- **Internship allotment request**: the school list, the supervisor, the
  capacity check and the slots.
- **Registry data-entry forms**:
  - the student's form, with the programme effect, the educational
    details and the plain-text registry export;
  - the administrator's form, with `validate`, the attendance percentages,
    the practical-file lists, the status selectors and the saved record.
- **Student help desk** (`SearchPortal`): the sign-in, the lookup by
  enrollment number and the yearly attendance figure.
- **Study-material repository**: the filter and the stable sort by title
  or by date stamp.
- **Category repositories and admin-route guard** of the application shell.
- **In-memory store** behind every page (`AuthContext`): the timelines,
  the records, the uploads, the signatures, the gallery, the governing
  body, the submissions, the reference-number counter and the per-school
  enrollment count.
- **A4 document wrapper**: page layout, screen scale, and the PDF export
  protocol.

The model takes two forms:

- **Pure parts** (the policy tables, validators, filters, look-ups and
  sorting) are Dafny functions, with lemmas stating what they promise.
- **React state** that handlers and effects update step by step is a
  class per page. Its fields are the state hooks and its methods are the
  handlers; each `ensures` gives the new state as a function of the old
  one.

The store is the class `AuthStore.Store`. The pages take it as a
parameter and call its methods (`AddSubmission`, `GenerateRefNo`,
`AddDataRecord`). Loops and array copies in the source are methods with
loops or arrays:

- the `downloadWord` text builder;
- the PDF page loop;
- the copy-then-assign edits of the attendance, practical, status and
  educational-detail arrays.

JavaScript semantics that matter are written out:

- `length`, in UTF-16 code units;
- `String.prototype.trim` and the `\s` class;
- `/^\d{10}$/` and the e-mail regular expression;
- `includes`, `toLowerCase`, `split` and `padStart`;
- `parseInt` without a radix: decimal, or hexadecimal after `0x`;
- `Math.round` as the floor of x + 1/2;
- `Array.prototype.find` and `filter`;
- the stable `Array.prototype.sort`.

## Model

| member | source | states |
|---|---|---|
| Strings.Utf16Length | pages/admin/DataEntryForm.tsx:106 | `.length` counts UTF-16 code units: at least one and at most two per character, and exactly one per character when none is astral |
| Strings.Utf16LengthAllAstral | pages/admin/DataEntryForm.tsx:106 | a string of astral characters has twice as many code units as characters |
| Strings.TrimStart | components/forms/BasicInfoSection.tsx:11-14 | the result is a suffix of the input that does not start with white space |
| Strings.TrimEnd | components/forms/BasicInfoSection.tsx:11-14 | the result is a prefix of the input that does not end with white space |
| Strings.TrimStartDropsWhitespace | components/forms/BasicInfoSection.tsx:11-14 | the characters dropped at the front are all white space |
| Strings.TrimEndDropsWhitespace | components/forms/BasicInfoSection.tsx:11-14 | the characters dropped at the back are all white space |
| Strings.BlankIffAllWhitespace | components/forms/BasicInfoSection.tsx:11-14 | `!s.trim()` holds exactly when every character of s is white space |
| Strings.EmailMatchesPattern | components/forms/BasicInfoSection.tsx:8 | the test computed by locating the '@' accepts exactly the language of `/^[^\s@]+@[^\s@]+\.[^\s@]+$/` |
| Strings.ContainsAt | pages/student/StudyMaterials.tsx:41-43 | `includes` holds exactly when the needle occurs at some index |
| Strings.Lower | pages/student/StudyMaterials.tsx:42-43 | same length, each character lower-cased in place |
| Strings.Split | pages/student/StudyMaterials.tsx:51 | at least one part, and no part contains the separator |
| Strings.SplitFirst | pages/student/StudyMaterials.tsx:51 | a separator-free prefix is split off as the first part |
| Strings.SplitNone | pages/student/StudyMaterials.tsx:51 | a string without the separator splits into itself alone |
| Strings.NatToString | context/AuthContext.tsx:251 | `String(n)` is a non-empty digit string without a leading zero unless n is 0 |
| Strings.NatToStringValue | context/AuthContext.tsx:251 | the decimal value of `String(n)` is n |
| Strings.LeadingZerosValue | context/AuthContext.tsx:251 | zeros put in front of a digit string keep it a digit string of the same value |
| Strings.AllZerosValue | context/AuthContext.tsx:251 | a run of zeros is a digit string of value 0 |
| Strings.PadStart | context/AuthContext.tsx:251 | the result has the larger of the two lengths, ends with the input and is filled in front with the pad character |
| Strings.PadStartValue | context/AuthContext.tsx:251 | zero-padding a digit string keeps its decimal value |
| Strings.DigitPrefixShape | pages/student/StudyMaterials.tsx:52 | the digits `parseInt` reads are a digit prefix that stops at a non-digit |
| Strings.DigitPrefixAllDigits | pages/student/StudyMaterials.tsx:52 | on a digit string `parseInt` reads every character |
| Strings.ParseInt | pages/student/StudyMaterials.tsx:52 | a negative result needs a '-' in the text |
| Strings.HexPrefixShape | pages/student/StudyMaterials.tsx:52 | the hexadecimal digits `parseInt` reads after `0x` are a prefix that stops at a non-hex-digit |
| Strings.ParseIntDecimal | pages/student/StudyMaterials.tsx:52 | unsigned text without `0x` gives the value of its leading digits, NaN when there are none |
| Strings.ParseIntHex | pages/student/StudyMaterials.tsx:52 | `0x` or `0X` followed by hex digits gives their base-16 value, NaN when there are none |
| Strings.ParseIntHexExample | pages/student/StudyMaterials.tsx:52 | `parseInt("0x1A")` is 26 |
| Strings.ParseIntSigned | pages/student/StudyMaterials.tsx:52 | a leading '-' negates the result and a leading '+' leaves it unchanged |
| Strings.ParseIntSkipsWhitespace | pages/student/StudyMaterials.tsx:52 | leading white space does not change the result |
| Strings.ParseIntOfNat | constants.ts:48 | `parseInt(String(n))` is n |
| Strings.ParseIntOfDigits | pages/student/StudyMaterials.tsx:52 | `parseInt` of a non-empty digit string is its decimal value |
| Strings.ReplaceWhitespaceRunsLaws | components/A4FormWrapper.tsx:70 | `replace(/\s+/g, rep)` leaves no white space, is the identity on white-space-free text, and is empty only on empty text |
| Strings.NoWhitespaceAppend | components/A4FormWrapper.tsx:70 | joining two white-space-free strings gives a white-space-free string |
| Strings.WhitespaceOnlyBecomesRep | components/A4FormWrapper.tsx:70 | a non-empty all-white-space text becomes a single replacement |
| Lists.Filter | App.tsx:37-43 | `filter` returns no more elements than it was given, each passing the test |
| Lists.FindFirst | pages/student/SearchPortal.tsx:34 | `find`: the index found satisfies the test and no earlier element does; none means no element does |
| Lists.FilterMembers | App.tsx:37-43 | an element is kept exactly when it is in the input and passes the test |
| Lists.FilterOrdered | App.tsx:37-43 | the kept elements form a subsequence of the input |
| Lists.InsertPermutes | pages/student/StudyMaterials.tsx:48-55 | inserting adds exactly the one element |
| Lists.InsertSorted | pages/student/StudyMaterials.tsx:48-55 | under a total order, inserting into a sorted list keeps it sorted |
| Lists.InsertionSortLaws | pages/student/StudyMaterials.tsx:48-55 | the stable sort returns a permutation of its input that is sorted under the comparator |
| Lists.InsertKeepsTies | pages/student/StudyMaterials.tsx:48-55 | under a transitive comparator, inserting keeps the new element ahead of the elements it ties with, in their order |
| Lists.InsertionSortStable | pages/student/StudyMaterials.tsx:48-55 | under a transitive comparator, the sort keeps each group of tied elements in input order |
| Constants.SessionsForProgramme | constants.ts:18-23 | the session list of a programme is non-empty and drawn from the pool |
| Constants.SessionsForProgrammeChoice | constants.ts:18-23 | the integrated pool is returned exactly for the three integrated programmes, the standard pool otherwise |
| Constants.SessionsDistinct | constants.ts:12-16 | the pool is the six standard sessions followed by the three integrated ones, all nine distinct |
| Constants.YearsForProgramme | constants.ts:25-30 | four years for an integrated programme and two otherwise, a prefix of the year labels starting at "First Year" |
| Constants.SemestersForProgramme | constants.ts:32-37 | eight semesters for an integrated programme and four otherwise, a prefix of the semester labels starting at "First Semester" |
| Constants.SemesterSystemCondition | constants.ts:40-45 | the early-exit rule equals one condition: not D.El.Ed., not the 2024-2026 B.Ed. batch, and M.Ed. or a name containing "B.Ed." |
| Constants.SemesterSystemOnProgrammes | constants.ts:40-45 | on the listed programmes: B.Ed. is annual only for 2024-2026, the integrated programmes and M.Ed. always use semesters, D.El.Ed. and Ph.D. never do |
| Constants.ExamYears | constants.ts:48 | there are 26 exam years |
| Constants.ExamYearsConsecutive | constants.ts:48 | exam year i reads back as 2025 + i |
| Constants.ExamYearsEnds | constants.ts:48 | the exam years run from "2025" to "2050" |
| Constants.SchoolTablesWellFormed | constants.ts:207-222 | every internship school has a supervisor, and school names are unique within each table |
| Constants.MonthsShape | constants.ts:179-184 | twelve months from August to July, each with working days |
| Curriculum.BEd2024FirstYearOk | constants.ts:54-67 | every row's full marks are its internal plus external marks, and an elective row's cap is positive |
| Curriculum.BEd2024SecondYearOk | constants.ts:68-74 | the same row shape for the B.Ed. 2024-2026 second year |
| Curriculum.BEd2025FirstSemesterOk | constants.ts:77-86 | the same row shape for the B.Ed. 2025-2027 first semester |
| Curriculum.BEd2025SecondSemesterOk | constants.ts:87-94 | the same row shape for the B.Ed. 2025-2027 second semester |
| Curriculum.BEd2025ThirdSemesterOk | constants.ts:95-102 | the same row shape for the B.Ed. 2025-2027 third semester |
| Curriculum.BEd2025FourthSemesterOk | constants.ts:103-109 | the same row shape for the B.Ed. 2025-2027 fourth semester |
| Curriculum.MEdFirstSemesterOk | constants.ts:114-120 | the same row shape for the M.Ed. first semester |
| Curriculum.MEdSecondSemesterOk | constants.ts:121-128 | the same row shape for the M.Ed. second semester |
| Curriculum.MEdThirdSemesterOk | constants.ts:129-136 | the same row shape for the M.Ed. third semester |
| Curriculum.MEdFourthSemesterOk | constants.ts:137-143 | the same row shape for the M.Ed. fourth semester |
| Curriculum.DElEdFirstYearOk | constants.ts:148-162 | the same row shape for the D.El.Ed. first year |
| Curriculum.DElEdSecondYearOk | constants.ts:163-174 | the same row shape for the D.El.Ed. second year |
| BasicInfo.PicksOrdered | components/forms/BasicInfoSection.tsx:6-31 | the reported messages keep the check order, one per failed check |
| BasicInfo.PicksMember | components/forms/BasicInfoSection.tsx:6-31 | with distinct messages, a message is reported exactly when its check fails |
| BasicInfo.PicksFrom | components/forms/BasicInfoSection.tsx:6-31 | every reported message belongs to a failed check |
| BasicInfo.PicksEmpty | components/forms/BasicInfoSection.tsx:6-31 | nothing is reported exactly when no check fails |
| BasicInfo.CatalogueDistinct | components/forms/BasicInfoSection.tsx:11-27 | the fourteen messages are pairwise distinct |
| BasicInfo.TenDigitsNotBlank | components/forms/BasicInfoSection.tsx:9 | a ten-digit value is never blank |
| BasicInfo.EmailNotBlank | components/forms/BasicInfoSection.tsx:8 | a value in the e-mail language is never blank |
| BasicInfo.MessageIffFails | components/forms/BasicInfoSection.tsx:6-31 | catalogue message i is reported exactly when check i fails |
| BasicInfo.RequiredTextMessages | components/forms/BasicInfoSection.tsx:11-14 | each name or enrollment message appears exactly when that field is blank after trimming |
| BasicInfo.NameMessage | components/forms/BasicInfoSection.tsx:11-14 | the first four messages each appear exactly when their field is all white space |
| BasicInfo.NonBlankMeaning | components/forms/BasicInfoSection.tsx:11-14 | the presence test fails exactly on all-white-space values |
| BasicInfo.TenDigitMeaning | components/forms/BasicInfoSection.tsx:20-24 | the format test fails exactly on non-blank values that are not ten digits |
| BasicInfo.EmailMeaning | components/forms/BasicInfoSection.tsx:26-27 | the e-mail format test fails exactly on non-blank values outside the e-mail language |
| BasicInfo.NonBlankCheck | components/forms/BasicInfoSection.tsx:11-14 | name checks 0-3 fail exactly when their field is all white space |
| BasicInfo.SelectionMessages | components/forms/BasicInfoSection.tsx:15-18 | the programme, session, year and photo messages appear exactly when that value is empty |
| BasicInfo.MobileChecks | components/forms/BasicInfoSection.tsx:20-21 | the mobile "mandatory" check fails on blank, the format check only on non-blank non-ten-digit values |
| BasicInfo.WhatsappChecks | components/forms/BasicInfoSection.tsx:23-24 | the same two checks for the WhatsApp number |
| BasicInfo.EmailChecks | components/forms/BasicInfoSection.tsx:26-27 | the e-mail "mandatory" check fails on blank, the format check only on non-blank values outside the language |
| BasicInfo.MobileMessages | components/forms/BasicInfoSection.tsx:20-21 | the missing-mobile message appears iff blank; the format message iff non-blank and not ten digits |
| BasicInfo.WhatsappMessages | components/forms/BasicInfoSection.tsx:23-24 | the same two messages for the WhatsApp number |
| BasicInfo.EmailMessages | components/forms/BasicInfoSection.tsx:26-27 | the missing-email message appears iff blank; the format message iff non-blank and outside the language |
| BasicInfo.NeverBothMessages | components/forms/BasicInfoSection.tsx:20-27 | the `else if` chains never report both messages of one field |
| BasicInfo.ValidIffAllChecksPass | components/forms/BasicInfoSection.tsx:6-31 | the result is empty exactly when every field condition holds |
| BasicInfo.ValidateOrdered | components/forms/BasicInfoSection.tsx:6-31 | at most eleven messages, a subsequence of the catalogue in check order |
| BasicInfo.CountAtMost | components/forms/BasicInfoSection.tsx:20-27 | with the three paired checks exclusive, at most eleven of the fourteen fail |
| BasicInfo.LeadingSpaceFailsDigitsOnly | components/forms/BasicInfoSection.tsx:20-21 | a mobile number with a leading space passes the trimmed presence check but fails the untrimmed digit test |
| ExamForm.LeafForLaws | pages/student/ExamForm.tsx:91-108 | no leaf without programme, session or year, or for an unlisted programme; a leaf found is indexed by the programme, its session key and the lookup key |
| ExamForm.SessionIgnored | pages/student/ExamForm.tsx:97-100 | for M.Ed. and D.El.Ed. the chosen batch does not change the leaf |
| ExamForm.LookupBEdAnnual | pages/student/ExamForm.tsx:91-108 | the 2024-2026 B.Ed. batch is looked up by year whatever the semester |
| ExamForm.LookupBEdSemester | pages/student/ExamForm.tsx:91-108 | the 2025-2027 B.Ed. batch is looked up by semester whatever the year |
| ExamForm.LookupMEdDElEd | pages/student/ExamForm.tsx:91-108 | M.Ed. is looked up by semester and D.El.Ed. by year |
| ExamForm.LookupMissing | pages/student/ExamForm.tsx:94-95 | an unlisted B.Ed. batch or programme finds no courses |
| ExamForm.CatalogKeys | constants.ts:51-177 | the curriculum index has exactly the listed programmes and session keys |
| ExamForm.TwoYearLabels | constants.ts:25-37 | a two-year programme offers exactly two year labels and four semester labels |
| ExamForm.CoherentBEdAnnual | constants.ts:40-45 | the annual B.Ed. batch is keyed by exactly its year labels |
| ExamForm.CoherentBEdSemester | constants.ts:40-45 | the semester B.Ed. batch is keyed by exactly its semester labels |
| ExamForm.CoherentMEd | constants.ts:40-45 | M.Ed. uses semesters and is keyed by exactly its semester labels |
| ExamForm.CoherentDElEd | constants.ts:40-45 | D.El.Ed. is annual and keyed by exactly its year labels |
| ExamForm.MaxFor | pages/student/ExamForm.tsx:117 | the cap of a multi-select row is positive |
| ExamForm.Letters | pages/student/ExamForm.tsx:112 | spreading a string gives one one-letter string per character |
| ExamForm.HandleElectiveChange | pages/student/ExamForm.tsx:110-124 | other codes keep their choice; a single choice overwrites the code's entry |
| ExamForm.ToggleKeepsWellFormed | pages/student/ExamForm.tsx:110-124 | a multi toggle keeps every ticked list free of duplicates and within its cap |
| ExamForm.PickBeyondCapIgnored | pages/student/ExamForm.tsx:117-120 | on a full list a new value changes nothing |
| ExamForm.ToggleTwiceRestores | pages/student/ExamForm.tsx:110-124 | ticking a new value with room left and then ticking it again restores the selection |
| ExamForm.MultiToggle | pages/student/ExamForm.tsx:111-119 | on a ticked list a toggle removes a present value, appends an absent one while below the cap, and otherwise changes nothing |
| ExamForm.UntickAppended | pages/student/ExamForm.tsx:112-113 | unticking the value just appended gives the list back |
| ExamForm.Required | pages/student/ExamForm.tsx:135 | an elective needs at least one choice |
| ExamForm.PendingMessages | pages/student/ExamForm.tsx:132-139 | at most one message per course |
| ExamForm.PendingMessagesEmpty | pages/student/ExamForm.tsx:132-139 | no message exactly when no elective is pending |
| ExamForm.PendingMessagesAppend | pages/student/ExamForm.tsx:132-139 | the messages of a concatenation are those of its parts, in order |
| ExamForm.PendingMessagesCount | pages/student/ExamForm.tsx:132-139 | one message per pending course |
| ExamForm.TitlesAgree | pages/student/ExamForm.tsx:155-162 | once a course is not pending, the stored title is the printed one; an unchosen elective prints "PENDING SELECTION"; a core course is its name |
| ExamForm.Processed | pages/student/ExamForm.tsx:155-162 | every course, in order, gets its stored title |
| ExamForm.ProcessedMatchesDisplay | pages/student/ExamForm.tsx:155-162 | after a clean verification every stored title is the printed one |
| ExamForm.TotalMarksAppend | pages/student/ExamForm.tsx:234 | the total of a concatenation is the sum of the totals |
| ExamForm.TotalMarksSplits | pages/student/ExamForm.tsx:234 | on well-formed rows the aggregate is the internal plus the external total |
| ExamForm.VerifyErrorsEmpty | pages/student/ExamForm.tsx:126-149 | verification passes exactly when the basic information passes, the address is not blank, a signature is present and no elective is pending |
| ExamForm.NormaliseLaws | pages/student/ExamForm.tsx:76-85 | the normalisation lands on a normalised form, is idempotent, keeps listed labels, resets unlisted ones to the first label, and touches only year, semester and exam nature |
| ExamForm.InitialFormSettled | pages/student/ExamForm.tsx:31-50 | the initial form is already normalised and reaches the B.Ed. 2024-2026 first-year courses |
| ExamForm.ExamFormState.constructor | pages/student/ExamForm.tsx:25-52 | the initial form with its current course list (`Valid`), no electives, entry view, no errors |
| ExamForm.ExamFormState.Mount | pages/student/ExamForm.tsx:54-56 | the reference number is the store's next one and the counter advances by one; the course list stays current (`Valid`) |
| ExamForm.ExamFormState.SetProgramme | pages/student/ExamForm.tsx:63-85 | a new programme takes its first session, normalises the form, clears the electives and recomputes the course list; the course list stays current (`Valid`) |
| ExamForm.ExamFormState.SetSession | pages/student/ExamForm.tsx:63-85 | a new session normalises the form, clears the electives and recomputes the course list; the course list stays current (`Valid`) |
| ExamForm.ExamFormState.SetYear | pages/student/ExamForm.tsx:63-69 | a new year clears the electives and recomputes the course list; the course list stays current (`Valid`) |
| ExamForm.ExamFormState.SetSemester | pages/student/ExamForm.tsx:63-69 | a new semester clears the electives and recomputes the course list; the course list stays current (`Valid`) |
| ExamForm.ExamFormState.EditDetails | pages/student/ExamForm.tsx:31-50 | other field edits keep the course list current (`Valid`) |
| ExamForm.ExamFormState.ElectiveChange | pages/student/ExamForm.tsx:110-124 | the selection becomes the handler's result; the course list stays current (`Valid`) |
| ExamForm.ExamFormState.InitialVerify | pages/student/ExamForm.tsx:126-149 | the errors are stored, and the view moves to verify exactly when there are none; the course list stays current (`Valid`) |
| ExamForm.ExamFormState.Modify | pages/student/ExamForm.tsx:262 | back to the entry view; the course list stays current (`Valid`) |
| ExamForm.ExamFormState.FinalSubmit | pages/student/ExamForm.tsx:151-175 | the submission is prepended to the store's list and the view is success; the course list stays current (`Valid`) |
| Internship.SchoolListChoice | pages/student/InternshipLetter.tsx:40-47 | the secondary-school table exactly for B.Ed. and M.Ed., the elementary one otherwise |
| Internship.SupervisorLaws | pages/student/InternshipLetter.tsx:57-61 | an unknown school gets "Pending Allotment"; the first matching school gives its first supervisor, or the marker if it has none |
| Internship.TableSupervisor | pages/student/InternshipLetter.tsx:57-61 | on the programme tables every school gives its first listed supervisor |
| Internship.SlotsLaws | pages/student/InternshipLetter.tsx:203 | an option is disabled exactly when no slot is left; otherwise 1 to 20 slots remain, and one request takes one slot |
| Internship.VerifyAlertIff | pages/student/InternshipLetter.tsx:63-76 | verification proceeds exactly when the particulars are filled and the school has fewer than 20 requests; otherwise it gives the mandate alert or the capacity alert |
| Internship.LetterState.constructor | pages/student/InternshipLetter.tsx:15-47 | the initial form and the secondary-school list, entry view |
| Internship.LetterState.Mount | pages/student/InternshipLetter.tsx:36-38 | the reference number is the store's next one and the counter advances by one |
| Internship.LetterState.SetProgramme | pages/student/InternshipLetter.tsx:40-47 | a new programme takes its school list and clears school and observer |
| Internship.LetterState.SchoolChange | pages/student/InternshipLetter.tsx:57-61 | the school is set with its supervisor |
| Internship.LetterState.EditDetails | pages/student/InternshipLetter.tsx:19-32 | other field edits change only the form |
| Internship.LetterState.InitialVerify | pages/student/InternshipLetter.tsx:63-76 | the alert is the verification outcome for the school's current count, and the view moves on exactly when there is none |
| Internship.LetterState.Modify | pages/student/InternshipLetter.tsx:166 | back to the entry view |
| Internship.LetterState.FinalSubmit | pages/student/InternshipLetter.tsx:78-95 | the request is prepended, the chosen school's count rises by one, other schools keep theirs, and the view is success |
| AdminEntry.EntryChecks | pages/admin/DataEntryForm.tsx:100-109 | there are five checks |
| AdminEntry.EntryCatalogueDistinct | pages/admin/DataEntryForm.tsx:100-109 | the five messages are distinct |
| AdminEntry.ValidateMessages | pages/admin/DataEntryForm.tsx:100-109 | each message is reported exactly when its field fails: empty enrollment, empty name, e-mail outside the language, contact shorter than 10 UTF-16 code units, empty address |
| AdminEntry.ValidateOrdered | pages/admin/DataEntryForm.tsx:100-109 | at most five messages in check order, and none exactly when all five conditions hold |
| AdminEntry.ContactCheckIsLengthOnly | pages/admin/DataEntryForm.tsx:106 | ten letters pass the contact check although they are not ten digits |
| AdminEntry.ContactCountsCodeUnits | pages/admin/DataEntryForm.tsx:106 | five astral characters are ten code units long and pass the contact check |
| AdminEntry.PercentageRounds | pages/admin/DataEntryForm.tsx:269 | the stored percentage is the integer nearest to 100 × present / working days, halves going up |
| AdminEntry.PercentageBounds | pages/admin/DataEntryForm.tsx:269 | a count between 0 and the working days gives a percentage between 0 and 100 |
| AdminEntry.PercentageEnds | pages/admin/DataEntryForm.tsx:269 | no days present is 0 percent and all days present is 100 |
| AdminEntry.AttendanceEditLaws | pages/admin/DataEntryForm.tsx:269 | an edit keeps month and working days, clamps the count to the working days, keeps the percentage within 100, leaves a consistent row, and is idempotent |
| AdminEntry.EditedAttendance | pages/admin/DataEntryForm.tsx:269 | the copied array differs from the original only at the edited row, which holds the edit |
| AdminEntry.FromMonthsOk | pages/admin/DataEntryForm.tsx:34-35 | fresh rows built from months with working days are consistent |
| AdminEntry.FromMonthsShape | pages/admin/DataEntryForm.tsx:34-35 | one fresh row per month, with its name and working days and no attendance |
| AdminEntry.InitialAttendanceShape | pages/admin/DataEntryForm.tsx:34-35 | the tables start with twelve rows from August to July, mirroring the calendar |
| AdminEntry.InitialAttendanceOk | pages/admin/DataEntryForm.tsx:34-35 | the initial rows are consistent |
| AdminEntry.PracticalShape | pages/admin/DataEntryForm.tsx:84-90 | D.El.Ed. has three first-year files and others six; six second-year files; all start not submitted, the first being "Action Research" |
| AdminEntry.EditedStatus | pages/admin/DataEntryForm.tsx:303 | the copied list differs only at entry i, whose status is set and name kept |
| AdminEntry.EditedSubmitted | pages/admin/DataEntryForm.tsx:288 | the copied list differs only at entry i, whose submitted flag is set and name kept |
| AdminEntry.RenamingsInvertible | pages/admin/DataEntryForm.tsx:124-133 | the renamings into the stored record lose nothing: each is undone by its inverse |
| AdminEntry.EntryState.constructor | pages/admin/DataEntryForm.tsx:18-62 | the initial particulars, attendance tables, practical lists and status lists, with no errors |
| AdminEntry.EntryState.SetDomain | pages/admin/DataEntryForm.tsx:84-90 | a change to the student domain rebuilds the practical lists; otherwise they are kept |
| AdminEntry.EntryState.EditBasicInfo | pages/admin/DataEntryForm.tsx:84-90 | a new programme in the student domain rebuilds the practical lists; otherwise they are kept |
| AdminEntry.EntryState.SetPresentDays | pages/admin/DataEntryForm.tsx:269 | only the edited row of the chosen year's table changes, and both tables stay consistent |
| AdminEntry.EntryState.SetSubmitted | pages/admin/DataEntryForm.tsx:288 | only the edited entry of the chosen year's practical list changes |
| AdminEntry.WithAchievementLaws | pages/admin/DataEntryForm.tsx:328-331 | the spread update sets the edited count, keeps the other three, and writing the old count back restores the log |
| AdminEntry.EntryState.EditAchievement | pages/admin/DataEntryForm.tsx:328-331 | the achievement log becomes the spread update of the edited count |
| AdminEntry.EntryState.SetStatus | pages/admin/DataEntryForm.tsx:303-355 | only the edited entry of the chosen status list changes, and every other list is kept |
| AdminEntry.EntryState.Record | pages/admin/DataEntryForm.tsx:124-133 | the record carries the id, domain, particulars and both attendance tables, and the renamed achievements, work and evaluation round-trip |
| AdminEntry.EntryState.HandleSave | pages/admin/DataEntryForm.tsx:111-140 | with errors they are stored and nothing is saved; a clean, confirmed save prepends the record; a cancelled confirmation saves nothing |
| StudentEntry.InitialEduDetailsShape | pages/student/DataEntryForm.tsx:14-19 | four rows from High School to Post Graduation, otherwise empty |
| StudentEntry.WithLaws | pages/student/DataEntryForm.tsx:80 | the spread sets the named field and only it; putting back the old value restores the detail |
| StudentEntry.EditedEdu | pages/student/DataEntryForm.tsx:78-82 | the copied list differs only at entry i, where only the named field changes |
| StudentEntry.SyncedLaws | pages/student/DataEntryForm.tsx:51-64 | after the effect the session, year and semester are offered by the selects; nothing else changes; the effect is idempotent |
| StudentEntry.SyncedSession | pages/student/DataEntryForm.tsx:51-64 | integrated programmes start in the integrated pool, others in the standard one |
| StudentEntry.WordFilenameRecovers | pages/student/DataEntryForm.tsx:135 | the admission number can be read back from the download name |
| StudentEntry.WordFilenameInjective | pages/student/DataEntryForm.tsx:135 | distinct admission numbers give distinct download names |
| StudentEntry.EduLinesAt | pages/student/DataEntryForm.tsx:127-129 | detail i's line follows the lines of the details before it |
| StudentEntry.EduLineOneBreak | pages/student/DataEntryForm.tsx:128 | a detail without line breaks in its fields gives exactly one line |
| StudentEntry.EduLinesBreaks | pages/student/DataEntryForm.tsx:127-129 | such details give one line each |
| StudentEntry.AppendEduLines | pages/student/DataEntryForm.tsx:127-129 | the loop appends the detail lines, in list order, to the text so far |
| StudentEntry.BuildWordText | pages/student/DataEntryForm.tsx:110-130 | the built text is the header followed by the detail lines |
| StudentEntry.InitialFormShape | pages/student/DataEntryForm.tsx:28-64 | after the first effect the form is B.Ed. 2024-2026, first year and semester, with the four initial details |
| StudentEntry.RegistryState.constructor | pages/student/DataEntryForm.tsx:24-44 | the initial form, no reference number, not submitted |
| StudentEntry.RegistryState.Mount | pages/student/DataEntryForm.tsx:46-48 | the reference number is the store's next one and the counter advances by one |
| StudentEntry.RegistryState.SetProgramme | pages/student/DataEntryForm.tsx:51-64 | a new programme runs the sync effect; the same programme changes nothing |
| StudentEntry.RegistryState.EditDetails | pages/student/DataEntryForm.tsx:28-44 | other inputs change only the form |
| StudentEntry.RegistryState.HandleEduChange | pages/student/DataEntryForm.tsx:78-82 | detail i gets the new field value and nothing else changes |
| StudentEntry.RegistryState.HandleVerifyAndSave | pages/student/DataEntryForm.tsx:84-108 | the mandate alert exactly when name, admission number or photo is missing; a confirmed save prepends the entry and marks the form submitted; otherwise the store is unchanged |
| StudentEntry.RegistryState.DownloadWord | pages/student/DataEntryForm.tsx:110-137 | the export carries the registry text and the download name |
| SearchPortal.LookupLaws | pages/student/SearchPortal.tsx:32-37 | no record exactly when none carries the number; a record found is the first one that does |
| SearchPortal.LookupPrefersNewest | pages/student/SearchPortal.tsx:34 | with the newest record first, a re-entered number finds the newest record |
| SearchPortal.RoundTwelfthRounds | pages/student/SearchPortal.tsx:103 | the figure is the integer nearest to a twelfth of the sum, halves going up |
| SearchPortal.SumBounds | pages/student/SearchPortal.tsx:103 | percentages between 0 and 100 sum to between 0 and 100 per row |
| SearchPortal.FigureBounds | pages/student/SearchPortal.tsx:103-108 | twelve rows of percentages between 0 and 100 give a figure between 0 and 100 |
| SearchPortal.SumConstant | pages/student/SearchPortal.tsx:103 | rows of one percentage sum to that percentage times the row count |
| SearchPortal.FigureDividesByTwelve | pages/student/SearchPortal.tsx:103 | the divisor is 12 whatever the row count: six full months read as 50 |
| SearchPortal.UserAccepted | pages/student/SearchPortal.tsx:26-28 | a staff login is accepted exactly when some account carries both the e-mail and the password |
| SearchPortal.PasswordlessRejected | pages/student/SearchPortal.tsx:26 | an account without a password never accepts a login |
| SearchPortal.PortalState.constructor | pages/student/SearchPortal.tsx:11-15 | selection step, admin mode, empty credentials and number, no record |
| SearchPortal.PortalState.Choose | pages/student/SearchPortal.tsx:155-164 | the mode is chosen and the login step shown |
| SearchPortal.PortalState.Cancel | pages/student/SearchPortal.tsx:193 | back to the selection step |
| SearchPortal.PortalState.EditCredentials | pages/student/SearchPortal.tsx:185-189 | the credentials become the typed ones |
| SearchPortal.PortalState.HandleLogin | pages/student/SearchPortal.tsx:17-31 | accepted credentials open the lookup step; otherwise the step is kept and the alert names the mode |
| SearchPortal.PortalState.EditEnrollmentId | pages/student/SearchPortal.tsx:211 | the number becomes the typed one |
| SearchPortal.PortalState.HandleLookup | pages/student/SearchPortal.tsx:32-37 | a record found is shown; otherwise the shown record is kept and the no-record alert raised |
| SearchPortal.PortalState.NewSearch | pages/student/SearchPortal.tsx:47 | no record is shown |
| SearchPortal.PortalState.Invalidate | pages/student/SearchPortal.tsx:218 | back to the selection with the credentials cleared |
| StudyMaterials.AllContentShape | pages/student/StudyMaterials.tsx:26-34 | the content is the study uploads in store order followed by the two static resources, all of them study material |
| StudyMaterials.FilteredSubset | pages/student/StudyMaterials.tsx:36-46 | the filter keeps, in order, exactly the items that match |
| StudyMaterials.NoCriteriaKeepsAll | pages/student/StudyMaterials.tsx:36-46 | with no criterion set everything is kept |
| StudyMaterials.WildcardItemsPass | pages/student/StudyMaterials.tsx:38-40 | an item carrying the three wildcards is subject to the search alone |
| StudyMaterials.DElEdIgnoresSemester | pages/student/StudyMaterials.tsx:24-40 | for D.El.Ed. the semester criterion has no effect |
| StudyMaterials.SemesterNarrows | pages/student/StudyMaterials.tsx:40 | otherwise a set semester keeps only that semester and the wildcard |
| StudyMaterials.LowerIdempotent | pages/student/StudyMaterials.tsx:42-43 | lower-casing twice is lower-casing once |
| StudyMaterials.SearchIgnoresCase | pages/student/StudyMaterials.tsx:41-43 | the search does not depend on the letter case of the query |
| StudyMaterials.TitleHitMatches | pages/student/StudyMaterials.tsx:41-43 | a query found verbatim in the title always matches |
| StudyMaterials.StringLeTotal | pages/student/StudyMaterials.tsx:49 | the title order compares any two titles |
| StudyMaterials.PartsKeyOf | pages/student/StudyMaterials.tsx:50-53 | three parts that parse key on year, then month, then day |
| StudyMaterials.BeforeTotal | pages/student/StudyMaterials.tsx:48-55 | both comparator orders are total, so the stable sort applies |
| StudyMaterials.ListingLaws | pages/student/StudyMaterials.tsx:36-55 | the listing is a permutation of the matching items, sorted by the chosen order, holding exactly the matching items |
| StudyMaterials.StringLeTransitive | pages/student/StudyMaterials.tsx:49 | the title order is transitive |
| StudyMaterials.TitleOrderTransitive | pages/student/StudyMaterials.tsx:49 | the A-Z comparator is transitive on items |
| StudyMaterials.ListingStableByTitle | pages/student/StudyMaterials.tsx:36-55 | sorted A-Z, items with equal titles keep their store order |
| StudyMaterials.DateKeyNoDash | pages/student/StudyMaterials.tsx:50-53 | a date stamp without '-' is NaN |
| StudyMaterials.UndatedTies | pages/student/StudyMaterials.tsx:50-53 | under "Newest" an item whose stamp has no '-' ties with every item |
| StudyMaterials.DateKeyOfStamp | pages/student/StudyMaterials.tsx:50-53 | a `dd-mm-yyyy` stamp whose parts parse keys on year × 10000 + month × 100 + day |
| StudyMaterials.SplitStamp | pages/student/StudyMaterials.tsx:51 | the stamp splits into its three parts |
| StudyMaterials.DateKeyNaN | pages/student/StudyMaterials.tsx:50-53 | a part without a digit makes the date NaN |
| StudyMaterials.DateKeyShort | pages/student/StudyMaterials.tsx:50-53 | a stamp with fewer than three parts is NaN |
| StudyMaterials.AvailableLaws | pages/student/StudyMaterials.tsx:19-21 | no years until a programme is chosen, no semesters until a year is chosen too |
| StudyMaterials.SelectWidens | pages/student/StudyMaterials.tsx:99-108 | after a programme change only programme and search narrow; after a year change the semester does not; the reset is idempotent |
| AppView.AvailableLaws | App.tsx:29-31 | each option list is empty exactly when no programme is chosen, otherwise it has the programme's length |
| AppView.SemModeLaws | App.tsx:33-35 | semester mode needs programme and session, follows the semester rule, and is off for D.El.Ed. and Ph.D. |
| AppView.ShownLaws | App.tsx:37-43 | the repository lists, in store order, exactly the items that pass the test, all of the page's category |
| AppView.SemesterIgnoredOutsideSemMode | App.tsx:41 | outside semester mode the semester select has no effect |
| AppView.NothingSelectedShowsCategory | App.tsx:37-43 | with nothing selected every item of the category is shown |
| AppView.ResetLaws | App.tsx:73-87 | a programme change turns semester mode off and leaves only category and programme; a year change leaves no semester narrowing; a session change keeps the other selects, and semester mode then follows the new session |
| AppView.GuardAdmin | App.tsx:134-138 | the route renders exactly for a signed-in administrator; everyone else is sent to the admin login |
| AuthStore.TimelineOpenIff | context/AuthContext.tsx:115-119 | a section is open exactly when its first timeline is active |
| AuthStore.ReplaceTimeline | context/AuthContext.tsx:121-127 | every entry with the id is replaced and the others are kept |
| AuthStore.ReplaceTimelineOpen | context/AuthContext.tsx:115-127 | after a replacement, that section is open exactly when the new entry is active and the section existed; other sections are unaffected |
| AuthStore.SetAllActive | context/AuthContext.tsx:129-135 | only the active flag changes, on every entry |
| AuthStore.SetAllActiveOpen | context/AuthContext.tsx:115-135 | after setting all flags, a section is open exactly when the flag is on and the section exists |
| AuthStore.RemoveIdEffect | context/AuthContext.tsx:153-159 | removal keeps, in order, exactly the elements without the id, and changes nothing when none has it |
| AuthStore.ReplaceMember | context/AuthContext.tsx:209-215 | every member with the id is replaced and the others are kept |
| AuthStore.ReplaceMemberIdempotent | context/AuthContext.tsx:209-215 | replacing twice with one entry is replacing once |
| AuthStore.MarkRead | context/AuthContext.tsx:241-247 | the list keeps its length |
| AuthStore.MarkReadEffect | context/AuthContext.tsx:241-247 | only the read flag changes; it is set on the entries with the id; marking twice is marking once |
| AuthStore.MergeSignatures | context/AuthContext.tsx:177-183 | a supplied signature overwrites, an absent one keeps the previous value |
| AuthStore.MergeLaws | context/AuthContext.tsx:177-183 | the merge is idempotent, has the empty update as identity, and composes updates right-biased |
| AuthStore.RefNoCounter | context/AuthContext.tsx:249-259 | the number is `KKU/SOETR/<year>/` then the counter padded to at least three digits, which reads back as the counter |
| AuthStore.RefNoInjective | context/AuthContext.tsx:249-259 | distinct counters in one year give distinct reference numbers |
| AuthStore.FirstRefNo | context/AuthContext.tsx:249-259 | the first number of 2025 is KKU/SOETR/2025/001 |
| AuthStore.SchoolCount | context/AuthContext.tsx:261-263 | a school's count never exceeds the number of submissions |
| AuthStore.SchoolCountAdd | context/AuthContext.tsx:225-263 | adding a submission raises a school's count by one exactly when it is an internship request for that school |
| AuthStore.SchoolCountAddAll | context/AuthContext.tsx:225-263 | the same, for every school at once |
| AuthStore.Store.constructor | context/AuthContext.tsx:72-83 | a student session, empty lists, the one administrator, the initial timelines, no signatures, counter 1 |
| AuthStore.Store.Login | context/AuthContext.tsx:137-140 | the user gets the role and e-mail; the administrator role defaults to super administrator |
| AuthStore.Store.Logout | context/AuthContext.tsx:141-143 | back to an anonymous student session |
| AuthStore.Store.UpdateFormTimeline | context/AuthContext.tsx:121-127 | the timelines become the replacement of the old ones |
| AuthStore.Store.UpdateAllFormTimelines | context/AuthContext.tsx:129-135 | every timeline gets the active flag |
| AuthStore.Store.AddDataRecord | context/AuthContext.tsx:145-151 | the record is prepended |
| AuthStore.Store.DeleteDataRecord | context/AuthContext.tsx:153-159 | the records with the id are removed |
| AuthStore.Store.PublishContent | context/AuthContext.tsx:161-167 | the upload is prepended |
| AuthStore.Store.DeleteContent | context/AuthContext.tsx:169-175 | the uploads with the id are removed |
| AuthStore.Store.UpdateOfficialSignatures | context/AuthContext.tsx:177-183 | the signatures are merged right-biased |
| AuthStore.Store.AddGalleryImage | context/AuthContext.tsx:185-191 | the image is appended |
| AuthStore.Store.DeleteGalleryImage | context/AuthContext.tsx:193-199 | the images with the id are removed |
| AuthStore.Store.Gallery | context/AuthContext.tsx:273 | the stored gallery when non-empty, otherwise the default one |
| AuthStore.Store.AddGoverningMember | context/AuthContext.tsx:201-207 | the member is prepended |
| AuthStore.Store.UpdateGoverningMember | context/AuthContext.tsx:209-215 | the members with the id are replaced |
| AuthStore.Store.DeleteGoverningMember | context/AuthContext.tsx:217-223 | the members with the id are removed |
| AuthStore.Store.AddSubmission | context/AuthContext.tsx:225-231 | the submission is prepended and each school's count rises by one exactly for its own internship request |
| AuthStore.Store.DeleteSubmission | context/AuthContext.tsx:233-239 | the submissions with the id are removed |
| AuthStore.Store.MarkSubmissionAsRead | context/AuthContext.tsx:241-247 | the submissions with the id are marked read |
| AuthStore.Store.GenerateRefNo | context/AuthContext.tsx:249-259 | the number for the current counter, which then advances by one |
| A4Form.PagesToRender | components/A4FormWrapper.tsx:79 | an explicit page list is rendered as given; otherwise one page with the title and children and no stamp or reference |
| A4Form.RenderA4Order | components/A4FormWrapper.tsx:81-139 | blocks strictly follow the fixed layout order, watermark first and body last |
| A4Form.TopBlocksOrder | components/A4FormWrapper.tsx:81-139 | the watermark, optional stamp and header run in rank order, ending with the header |
| A4Form.LowerBlocksOrder | components/A4FormWrapper.tsx:81-139 | the optional reference line and title and the content run in rank order, ending with the content |
| A4Form.RenderA4Presence | components/A4FormWrapper.tsx:81-139 | the header is always there; stamp, reference line and title appear exactly when their text is non-empty |
| A4Form.Scale | components/A4FormWrapper.tsx:28-39 | the scale never exceeds 1 |
| A4Form.ScaleLaws | components/A4FormWrapper.tsx:28-39 | the page is shrunk exactly below 810 pixels, then it fits the screen width exactly; the scale grows with the width |
| A4Form.FilenameCases | components/A4FormWrapper.tsx:70 | an empty title gives the default name, an all-white-space title "_.pdf", otherwise the title with white-space runs replaced |
| A4Form.FilenameNoWhitespace | components/A4FormWrapper.tsx:70 | the saved name never holds white space |
| A4Form.RunAppend | components/A4FormWrapper.tsx:59-69 | running two operation logs is running them one after the other |
| A4Form.PagesDoneLayout | components/A4FormWrapper.tsx:59-69 | the first n nodes give n pages, page i carrying the image of node i alone |
| A4Form.PagesDoneCounts | components/A4FormWrapper.tsx:59-69 | n nodes add n − 1 pages and n images |
| A4Form.PageStepCounts | components/A4FormWrapper.tsx:59-69 | one node adds a page unless it is the first, and one image |
| A4Form.RunLaterStep | components/A4FormWrapper.tsx:59-69 | a later node opens a new page carrying its image alone |
| A4Form.SavedPdf | components/A4FormWrapper.tsx:53-70 | a successful export of n ≥ 1 nodes saves n pages, one image each |
| A4Form.DownloadProtocol | components/A4FormWrapper.tsx:45-77 | a refused download only alerts; a missing container does nothing; otherwise the export is wrapped in its set-up and clean-up, and saves exactly when no capture fails |
| A4Form.ExportShape | components/A4FormWrapper.tsx:53-77 | the export starts with its set-up, ends with its clean-up, and holds the save exactly when no capture fails and the error report exactly when one does |
| A4Form.LoopOpsKinds | components/A4FormWrapper.tsx:59-69 | the loop only adds pages, captures and images |
| A4Form.Wrapper.constructor | components/A4FormWrapper.tsx:22-24 | not generating, not in export mode, empty log |
| A4Form.Wrapper.ExportPages | components/A4FormWrapper.tsx:59-69 | the loop's log, and it fails exactly when a capture fails |
| A4Form.Wrapper.Download | components/A4FormWrapper.tsx:45-77 | the handler's log is the protocol's, and the flags are reset on every path |

## Behaviour worth noting

The model follows the code where it departs from what its messages and
labels suggest:

- The administrator's contact check (pages/admin/DataEntryForm.tsx:106)
  looks only at the length, so ten letters pass it
  (`AdminEntry.ContactCheckIsLengthOnly`). The length is counted in UTF-16
  code units, so five emoji pass it as well
  (`AdminEntry.ContactCountsCodeUnits`).
- The examination form's multi-select completeness check uses `<`
  against `maxSelection`: a list shorter than the cap is pending
  (pages/student/ExamForm.tsx:135).
- The yearly attendance figure divides by 12 whatever the number of rows
  (`SearchPortal.FigureDividesByTwelve`).
- The student validator trims before the presence test but tests the
  untrimmed value against the digit pattern
  (`BasicInfo.LeadingSpaceFailsDigitsOnly`).
- Uploads are stamped with `toLocaleDateString('en-GB')`, which writes
  `dd/mm/yyyy` (pages/admin/AdminDashboard.tsx:70). The "Newest" sort
  splits on '-', so an upload's date is NaN and it ties with every item
  (`StudyMaterials.UndatedTies`); only `dd-mm-yyyy` stamps sort by date.
- The administrator's `adminWorks`, `evalData` and `ntTechnical` states
  have setters that are never called (pages/admin/DataEntryForm.tsx:56-61),
  so the saved record always holds their initial values.

## Left out

- Browser storage is not modelled: the store's `localStorage` writes and
  loads, and the administrator's draft save and load.
- The alert, scroll, navigation, timer and spinner effects are not
  modelled: `isSaving`, `isAligning`, the 400 ms and 2 s delays, and
  `window.scrollTo`.
- The print and preview modes (`isPrintMode`, `isPreviewMode`,
  `previewItem`) and all rendering beyond the A4 block layout are not
  modelled.
- Dates, timestamps, years and ids are parameters of the methods that use
  them. These come from `new Date()`, `Date.now()` and
  `toLocaleDateString`, the clock.
- `window.confirm` is a `confirmed` parameter.
- The institution's hard-coded administrator credential check in
  `handleLogin` is a parameter `institutionCheck`, so the model holds no
  password.
- `html2canvas` and `jsPDF` are foreign calls:
  - a failing capture is the parameter `failAt`;
  - the writer is a list of pages;
  - jsPDF's blank page for a download of zero nodes is outside
    `A4Form.SavedPdf`'s precondition.
- File reading (`FileReader` for photos and signatures) and the
  Blob/anchor downloads (`triggerDownload`, `handleDownload` of the
  study materials, the `.doc` download) are left out. Only their text
  and file name are modelled.
- `AdminEntry.Percentage` uses exact arithmetic, with `Math.round` as the
  floor of x + 1/2. It does not model IEEE rounding, and the typed count
  is an integer: NaN and fractional input from `Number(...)` are left out.
- `SearchPortal.RoundTwelfth` is exact for integer sums; IEEE division is
  not modelled.
- `StudyMaterials.StringLe` stands in for `localeCompare` by code-point
  order.
- `Strings.Lower` lower-cases ASCII letters only.
- `StudyMaterials.DateKey`:
  - y × 10000 + m × 100 + d orders like `getTime` only for valid calendar
    dates, because calendar rollover is not modelled;
  - `new Date` maps a two-digit year to 19xx, which is not modelled;
  - a NaN comparison counts as a tie, while the engine's order under an
    inconsistent comparator is unspecified.
- `StudyMaterials.Listing` models the ES2019 stable sort as a stable
  insertion sort.
- `StudyMaterials.ListingStableByTitle`: stability is stated for the A-Z
  order only, because the "Newest" order is not transitive (a NaN date
  ties with everything).
- There is no concrete lemma on the two static resources' date keys, so
  their relative order is not stated.
- `ExamForm.TotalMarksSplits` requires well-formed rows. That the table's
  rows are well-formed is proved per leaf by the `Curriculum.*Ok` lemmas.
- The payload of the internship request and of the student registry
  entry is the form alone: the copy of the reference number inside
  `data` (it is already the submission's `id`) and the registry's ISO
  timestamp are dropped. The examination form's payload keeps the
  form, the processed courses and the reference number.
- A field that the TypeScript types leave `undefined` is modelled as the
  empty string or `None`; for example `isRead` undefined is false.
- The spread copy `[...list]` followed by `arr[i].field = v` mutates the
  shared object in the source. The model copies values, so the aliasing
  of the old and new array's element is not captured.
- HTML `required` attributes on the inputs are not modelled; only the
  handlers' own checks are.
- The mount effects (`generateRefNo` on mount) are separate `Mount`
  methods rather than part of the constructors.
- The default texts (default gallery, governing body) are constructor
  parameters.
- The leave application, feedback form, administrator dashboard, home
  page, header, footer, sidebar and signature upload are not part of this
  model.
