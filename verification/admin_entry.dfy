/** The administrator's master data-entry form: the five-check `validate`,
    the save gate, the attendance tables with their clamped present-day
    counts and rounded percentages, the practical-file lists that follow
    the programme, the status selectors, and the record that is saved. */
module AdminEntry {
  import opened Wrappers
  import opened Strings
  import opened Lists
  import opened Types
  import opened Constants
  import V = BasicInfo
  import AuthStore

  // ---------------------------------------------------------------------
  // validate
  // ---------------------------------------------------------------------

  const MsgEnrollmentRequired := "Admission ID / Enrollment No is required."
  const MsgNameMandatory := "Full Name is mandatory."
  const MsgEmailRequired := "Valid institutional email is required."
  const MsgContactDigits := "Primary contact must be 10 digits."
  const MsgAddressRequired := "Postal address is required."

  /** The five messages in the order `validate` checks. */
  function EntryCatalogue(): seq<string>
  {
    [MsgEnrollmentRequired, MsgNameMandatory, MsgEmailRequired, MsgContactDigits, MsgAddressRequired]
  }

  /** Which of the five checks fail. The contact check looks at the length
      in UTF-16 code units only; the e-mail check joins absence and the
      pattern into one. */
  function EntryChecks(b: BasicInfo): (r: seq<bool>)
    ensures |r| == 5
  {
    [b.enrollmentNo == "", b.name == "", b.email == "" || !EmailMatches(b.email),
     b.contact1 == "" || Utf16Length(b.contact1) < 10, b.address == ""]
  }

  /** `validate()`: one message per failing check, in check order. */
  function Validate(b: BasicInfo): seq<string>
  {
    V.Picks(EntryChecks(b), EntryCatalogue())
  }

  lemma EntryCatalogueDistinct()
    ensures |EntryCatalogue()| == 5
    ensures forall a, c :: 0 <= a < c < 5 ==> EntryCatalogue()[a] != EntryCatalogue()[c]
  {
    var m := EntryCatalogue();
    forall a, c | 0 <= a < c < 5 ensures m[a] != m[c] {
      assert |m[a]| != |m[c]|;
    }
  }

  /** Each message is reported exactly when its own check fails. */
  lemma ValidateMessages(b: BasicInfo)
    ensures MsgEnrollmentRequired in Validate(b) <==> b.enrollmentNo == ""
    ensures MsgNameMandatory in Validate(b) <==> b.name == ""
    ensures MsgEmailRequired in Validate(b) <==> !EmailPattern(b.email)
    ensures MsgContactDigits in Validate(b) <==> Utf16Length(b.contact1) < 10
    ensures MsgAddressRequired in Validate(b) <==> b.address == ""
  {
    var f, m := EntryChecks(b), EntryCatalogue();
    EntryCatalogueDistinct();
    V.PicksMember(f, m, 0);
    V.PicksMember(f, m, 1);
    V.PicksMember(f, m, 2);
    V.PicksMember(f, m, 3);
    V.PicksMember(f, m, 4);
    EmailMatchesPattern(b.email);
    if b.email == "" {
      assert !EmailMatches(b.email);
    }
  }

  /** The messages keep check order, at most one per check, and there are
      none exactly when all five checks pass. */
  lemma ValidateOrdered(b: BasicInfo)
    ensures |Validate(b)| <= 5
    ensures IsSubseq(Validate(b), EntryCatalogue())
    ensures Validate(b) == [] <==>
      b.enrollmentNo != "" && b.name != "" && EmailPattern(b.email) &&
      Utf16Length(b.contact1) >= 10 && b.address != ""
  {
    var f := EntryChecks(b);
    V.PicksOrdered(f, EntryCatalogue());
    V.PicksEmpty(f, EntryCatalogue());
    V.CountBound(f);
    EmailMatchesPattern(b.email);
    if b.email == "" {
      assert !EmailMatches(b.email);
    }
    assert !f[0] && !f[1] && !f[2] && !f[3] && !f[4] ==> forall i :: 0 <= i < |f| ==> !f[i];
  }

  /** The contact check counts characters: ten letters pass it. */
  lemma ContactCheckIsLengthOnly(b: BasicInfo)
    requires b.contact1 == "abcdefghij"
    ensures MsgContactDigits !in Validate(b)
    ensures !IsTenDigits(b.contact1)
  {
    ValidateMessages(b);
    assert !IsDigit(b.contact1[0]);
  }

  /** The contact check counts UTF-16 code units: five telephone-receiver
      emoji (U+1F4DE, a surrogate pair each) are ten units long and pass. */
  lemma ContactCountsCodeUnits(b: BasicInfo)
    requires b.contact1 == "\U{1F4DE}\U{1F4DE}\U{1F4DE}\U{1F4DE}\U{1F4DE}"
    ensures MsgContactDigits !in Validate(b)
    ensures |b.contact1| == 5
  {
    Utf16LengthAllAstral(b.contact1);
    ValidateMessages(b);
  }

  // ---------------------------------------------------------------------
  // Attendance
  // ---------------------------------------------------------------------

  function Min(a: int, b: int): int
  {
    if a <= b then a else b
  }

  /** `Math.round(present / workingDays * 100)` on exact arithmetic:
      JavaScript rounds halves up, which is the floor of x + 1/2. */
  function Percentage(present: int, workingDays: int): int
    requires workingDays > 0
  {
    (200 * present + workingDays) / (2 * workingDays)
  }

  /** Multiplying by a positive number keeps order. */
  lemma MulMonotone(x: int, y: int, m: int)
    requires m > 0 && x <= y
    ensures x * m <= y * m
  {
  }

  /** The quotient is the one multiple that brackets the dividend. */
  lemma DivUnique(a: int, d: int, q: int)
    requires d > 0 && q * d <= a < (q + 1) * d
    ensures a / d == q
  {
    var r := a / d;
    assert r * d <= a < (r + 1) * d;
    if r < q {
      MulMonotone(r + 1, q, d);
      assert false;
    } else if q < r {
      MulMonotone(q + 1, r, d);
      assert false;
    }
  }

  /** The percentage is the integer nearest to 100 * present / workingDays,
      halves rounded up. */
  lemma PercentageRounds(present: int, w: int)
    requires w > 0
    ensures Percentage(present, w) * (2 * w) <= 200 * present + w
    ensures 200 * present + w < (Percentage(present, w) + 1) * (2 * w)
  {
    var q := Percentage(present, w);
    assert q * (2 * w) <= 200 * present + w < q * (2 * w) + 2 * w;
  }

  /** For a count up to the working days the percentage is at most 100,
      and not negative for a count that is not. */
  lemma PercentageBounds(present: int, w: int)
    requires w > 0 && present <= w
    ensures Percentage(present, w) <= 100
    ensures present >= 0 ==> Percentage(present, w) >= 0
  {
    PercentageRounds(present, w);
    var q := Percentage(present, w);
    if q > 100 {
      MulMonotone(101, q, 2 * w);
      assert false;
    }
    if present >= 0 && q < 0 {
      MulMonotone(q + 1, 0, 2 * w);
      assert false;
    }
  }

  /** No days present is 0 percent and every day present is 100. */
  lemma PercentageEnds(w: int)
    requires w > 0
    ensures Percentage(0, w) == 0 && Percentage(w, w) == 100
  {
    DivUnique(w, 2 * w, 0);
    DivUnique(200 * w + w, 2 * w, 100);
  }

  /** The cell edit of row `row`: the typed count clamped to the working
      days and the percentage recomputed from it. */
  function AttendanceEdit(row: AttendanceRecord, input: int): AttendanceRecord
    requires row.workingDays > 0
  {
    var present := Min(input, row.workingDays);
    row.(presentDays := present, percentage := Percentage(present, row.workingDays))
  }

  /** A row as the form keeps it: positive working days, a count no larger
      than them, and the percentage of that count. */
  predicate RowConsistent(row: AttendanceRecord)
  {
    row.workingDays > 0 && row.presentDays <= row.workingDays &&
    row.percentage == Percentage(row.presentDays, row.workingDays)
  }

  predicate AttendanceOk(att: seq<AttendanceRecord>)
  {
    forall k :: 0 <= k < |att| ==> RowConsistent(att[k])
  }

  /** An edit keeps the month and the working days, never records more
      days than worked or more than 100 percent, keeps a count it does not
      need to clamp, leaves a consistent row, and repeating it changes
      nothing. */
  lemma AttendanceEditLaws(row: AttendanceRecord, input: int)
    requires row.workingDays > 0
    ensures AttendanceEdit(row, input).month == row.month
    ensures AttendanceEdit(row, input).workingDays == row.workingDays
    ensures AttendanceEdit(row, input).presentDays <= row.workingDays
    ensures input <= row.workingDays ==> AttendanceEdit(row, input).presentDays == input
    ensures input > row.workingDays ==> AttendanceEdit(row, input).presentDays == row.workingDays
    ensures AttendanceEdit(row, input).percentage <= 100
    ensures input >= 0 ==> 0 <= AttendanceEdit(row, input).percentage
    ensures RowConsistent(AttendanceEdit(row, input))
    ensures AttendanceEdit(AttendanceEdit(row, input), input) == AttendanceEdit(row, input)
  {
    PercentageBounds(Min(input, row.workingDays), row.workingDays);
  }

  /** The handler's array work: copy the list, then set the count and the
      percentage of entry `i` in place. */
  method EditedAttendance(att: seq<AttendanceRecord>, i: nat, input: int) returns (r: seq<AttendanceRecord>)
    requires i < |att| && att[i].workingDays > 0
    ensures |r| == |att|
    ensures r[i] == AttendanceEdit(att[i], input)
    ensures forall j :: 0 <= j < |att| && j != i ==> r[j] == att[j]
  {
    var arr := new AttendanceRecord[|att|](k requires 0 <= k < |att| => att[k]);
    var w := arr[i].workingDays;
    var present := Min(input, w);
    arr[i] := arr[i].(presentDays := present);
    arr[i] := arr[i].(percentage := Percentage(present, w));
    r := arr[..];
  }

  /** Fresh rows for a list of months: their names and working days,
      nothing present. */
  function FromMonths(ms: seq<MonthDays>): seq<AttendanceRecord>
  {
    seq(|ms|, k requires 0 <= k < |ms| => AttendanceRecord(ms[k].name, ms[k].days, 0, 0))
  }

  /** Fresh rows are consistent when every month has working days. */
  lemma FromMonthsOk(ms: seq<MonthDays>)
    requires forall k :: 0 <= k < |ms| ==> ms[k].days > 0
    ensures AttendanceOk(FromMonths(ms))
  {
    var a := FromMonths(ms);
    forall k | 0 <= k < |a| ensures RowConsistent(a[k]) {
      PercentageEnds(a[k].workingDays);
    }
  }

  lemma FromMonthsShape(ms: seq<MonthDays>)
    ensures |FromMonths(ms)| == |ms|
    ensures forall k :: 0 <= k < |ms| ==>
      FromMonths(ms)[k].month == ms[k].name && FromMonths(ms)[k].workingDays == ms[k].days &&
      FromMonths(ms)[k].presentDays == 0
  {
  }

  /** The twelve rows each year starts with. */
  function InitialAttendance(): seq<AttendanceRecord>
  {
    FromMonths(Months())
  }

  /** They mirror the months of the academic year, August to July. */
  lemma InitialAttendanceShape()
    ensures |InitialAttendance()| == 12
    ensures forall k :: 0 <= k < 12 ==>
      InitialAttendance()[k].month == Months()[k].name &&
      InitialAttendance()[k].workingDays == Months()[k].days &&
      InitialAttendance()[k].presentDays == 0
    ensures InitialAttendance()[0].month == "August" && InitialAttendance()[11].month == "July"
  {
    MonthsShape();
    FromMonthsShape(Months());
  }

  /** They are consistent rows. */
  lemma InitialAttendanceOk()
    ensures AttendanceOk(InitialAttendance())
  {
    MonthsShape();
    FromMonthsOk(Months());
  }

  // ---------------------------------------------------------------------
  // Practical files and status selectors
  // ---------------------------------------------------------------------

  function NotYet(name: string): PracticalFileStatus
  {
    PracticalFileStatus(name, NotSubmitted)
  }

  /** The first-year practical files of a programme. */
  function Practical1(programme: string): seq<PracticalFileStatus>
  {
    if programme == "D.El.Ed." then
      [NotYet("Action Research"), NotYet("Micro-teaching"), NotYet("Lesson Plan")]
    else
      [NotYet("Action Research"), NotYet("Psychological Test"), NotYet("Drama and Art"),
       NotYet("Reading & Reflecting"), NotYet("Micro-teaching"), NotYet("Lesson Plan")]
  }

  /** The second-year practical files of a programme. */
  function Practical2(programme: string): seq<PracticalFileStatus>
  {
    if programme == "D.El.Ed." then
      [NotYet("Community Work"), NotYet("Peer Observation"), NotYet("Task and Education"),
       NotYet("School Diary"), NotYet("Art Integrated Education"), NotYet("Lesson Plan")]
    else
      [NotYet("School Diary"), NotYet("Achievement Test"), NotYet("Peer Observation"),
       NotYet("Lesson Plan"), NotYet("Understanding Self"), NotYet("ICT")]
  }

  /** D.El.Ed. has three first-year files and every other programme six;
      both have six second-year files; none starts submitted. */
  lemma PracticalShape(programme: string)
    ensures |Practical1(programme)| == (if programme == "D.El.Ed." then 3 else 6)
    ensures |Practical2(programme)| == 6
    ensures forall k :: 0 <= k < |Practical1(programme)| ==> Practical1(programme)[k].submitted == NotSubmitted
    ensures forall k :: 0 <= k < |Practical2(programme)| ==> Practical2(programme)[k].submitted == NotSubmitted
    ensures Practical1(programme)[0].name == "Action Research"
  {
  }

  /** A selector's array work: copy the list, then set the status of
      entry `i` in place. */
  method EditedStatus(list: seq<ParticipationStatus>, i: nat, st: Status) returns (r: seq<ParticipationStatus>)
    requires i < |list|
    ensures |r| == |list|
    ensures r[i].name == list[i].name && r[i].status == st
    ensures forall j :: 0 <= j < |list| && j != i ==> r[j] == list[j]
  {
    var arr := new ParticipationStatus[|list|](k requires 0 <= k < |list| => list[k]);
    arr[i] := arr[i].(status := st);
    r := arr[..];
  }

  /** The practical-file selector: the same in-place edit of `submitted`. */
  method EditedSubmitted(list: seq<PracticalFileStatus>, i: nat, s: Submitted) returns (r: seq<PracticalFileStatus>)
    requires i < |list|
    ensures |r| == |list|
    ensures r[i].name == list[i].name && r[i].submitted == s
    ensures forall j :: 0 <= j < |list| && j != i ==> r[j] == list[j]
  {
    var arr := new PracticalFileStatus[|list|](k requires 0 <= k < |list| => list[k]);
    arr[i] := arr[i].(submitted := s);
    r := arr[..];
  }

  // ---------------------------------------------------------------------
  // The saved record
  // ---------------------------------------------------------------------

  /** The achievement inputs as the form names them. */
  datatype Achievements = Achievements(researchPapers: string, workshops: string, booksWritten: string, apps: string)

  /** The four inputs of the achievement log. */
  datatype AchievementField = ResearchPapers | Workshops | BooksWritten | Apps

  /** The count an input shows. */
  function AchievementOf(a: Achievements, f: AchievementField): string
  {
    match f
    case ResearchPapers => a.researchPapers
    case Workshops => a.workshops
    case BooksWritten => a.booksWritten
    case Apps => a.apps
  }

  /** `{...achievements, [field]: value}`. */
  function WithAchievement(a: Achievements, f: AchievementField, value: string): Achievements
  {
    match f
    case ResearchPapers => a.(researchPapers := value)
    case Workshops => a.(workshops := value)
    case BooksWritten => a.(booksWritten := value)
    case Apps => a.(apps := value)
  }

  /** The spread sets the named count, keeps the other three, and writing
      the old count back restores the log. */
  lemma WithAchievementLaws(a: Achievements, f: AchievementField, value: string)
    ensures AchievementOf(WithAchievement(a, f, value), f) == value
    ensures forall g :: g != f ==> AchievementOf(WithAchievement(a, f, value), g) == AchievementOf(a, g)
    ensures WithAchievement(WithAchievement(a, f, value), f, AchievementOf(a, f)) == a
  {
  }

  /** The administrative-work inputs as the form names them. */
  datatype AdminWorks = AdminWorks(contribution: string, mentor: string, coCurricular: string, examContr: string)

  /** `apps` is stored as `educationalApps`. */
  function ToAcademic(a: Achievements): AcademicAchievements
  {
    AcademicAchievements(a.researchPapers, a.workshops, a.booksWritten, a.apps)
  }

  function FromAcademic(a: AcademicAchievements): Achievements
  {
    Achievements(a.researchPapers, a.workshops, a.booksWritten, a.educationalApps)
  }

  /** `contribution` is stored as `academicContribution` and `examContr`
      as `examination`. */
  function ToAdminWork(w: AdminWorks): AdminWork
  {
    AdminWork(w.contribution, w.mentor, w.coCurricular, w.examContr)
  }

  function FromAdminWork(w: AdminWork): AdminWorks
  {
    AdminWorks(w.academicContribution, w.mentor, w.coCurricular, w.examination)
  }

  /** The renamings lose nothing: each is undone by its inverse. */
  lemma RenamingsInvertible(a: Achievements, sa: AcademicAchievements, w: AdminWorks, sw: AdminWork)
    ensures FromAcademic(ToAcademic(a)) == a && ToAcademic(FromAcademic(sa)) == sa
    ensures FromAdminWork(ToAdminWork(w)) == w && ToAdminWork(FromAdminWork(sw)) == sw
    ensures ToAcademic(a).educationalApps == a.apps
    ensures ToAdminWork(w).academicContribution == w.contribution && ToAdminWork(w).examination == w.examContr
  {
  }

  // ---------------------------------------------------------------------
  // Initial inputs
  // ---------------------------------------------------------------------

  function InitialBasicInfo(): BasicInfo
  {
    BasicInfo("", "", "", "", "B.Ed.", "2024-2026", "1st Year", "", "", "", "", "")
  }

  function InitialOutreach(): seq<ParticipationStatus>
  {
    [ParticipationStatus("Literacy Campaign", NotAttended), ParticipationStatus("Hygiene Campaign", NotAttended),
     ParticipationStatus("Anti-Discrimination", NotAttended), ParticipationStatus("Plantation Campaign", NotAttended)]
  }

  function InitialExams(): seq<ParticipationStatus>
  {
    [ParticipationStatus("CT-1", Absent), ParticipationStatus("CT-2", Absent), ParticipationStatus("CT-3", Absent),
     ParticipationStatus("Exam Form Filled", NotFilled), ParticipationStatus("Practical Exam", Absent),
     ParticipationStatus("Result Status", Failed)]
  }

  function InitialSports(): seq<ParticipationStatus>
  {
    [ParticipationStatus("Cricket", NotParticipated), ParticipationStatus("Volleyball", NotParticipated),
     ParticipationStatus("Basketball", NotParticipated), ParticipationStatus("Badminton", NotParticipated),
     ParticipationStatus("Table Tennis", NotParticipated), ParticipationStatus("Chess", NotParticipated),
     ParticipationStatus("Athletics", NotParticipated)]
  }

  function InitialQualifications(): seq<ParticipationStatus>
  {
    [ParticipationStatus("M.A.", No), ParticipationStatus("M.Sc.", No), ParticipationStatus("M.Ed.", No),
     ParticipationStatus("NET", No), ParticipationStatus("Ph.D.", No)]
  }

  function InitialNtQuals(): seq<ParticipationStatus>
  {
    [ParticipationStatus("12th Pass", No), ParticipationStatus("B.A.", No), ParticipationStatus("M.A.", No)]
  }

  function InitialNtResponsibilities(): seq<ParticipationStatus>
  {
    [ParticipationStatus("Marksheet Distribution", No), ParticipationStatus("Exam Form Support", No),
     ParticipationStatus("Practical File Collection", No), ParticipationStatus("Typing Works", No)]
  }

  /** Which of the status lists a selector edits. */
  datatype StatusList = Exams | Qualifications | NtQuals | NtResponsibilities

  class EntryState {
    var domain: PersonDomain
    var basicInfo: BasicInfo
    var att1: seq<AttendanceRecord>
    var att2: seq<AttendanceRecord>
    var prac1: seq<PracticalFileStatus>
    var prac2: seq<PracticalFileStatus>
    var outreach: seq<ParticipationStatus>
    var exams: seq<ParticipationStatus>
    var sports: seq<ParticipationStatus>
    var qualifications: seq<ParticipationStatus>
    var achievements: Achievements
    var adminWorks: AdminWorks
    var evalData: Evaluation
    var ntQuals: seq<ParticipationStatus>
    var ntTechnical: string
    var ntResponsibilities: seq<ParticipationStatus>
    var validationErrors: seq<string>

    /** Both attendance tables hold consistent rows. */
    predicate AttendanceValid()
      reads this`att1, this`att2
    {
      AttendanceOk(att1) && AttendanceOk(att2)
    }

    /** The form as first shown, after the practical-list effect has run
        for the student domain and B.Ed. */
    constructor()
      ensures domain == StudentDomain && basicInfo == InitialBasicInfo()
      ensures att1 == InitialAttendance() && att2 == InitialAttendance() && AttendanceValid()
      ensures prac1 == Practical1("B.Ed.") && prac2 == Practical2("B.Ed.")
      ensures outreach == InitialOutreach() && exams == InitialExams() && sports == InitialSports()
      ensures qualifications == InitialQualifications()
      ensures ntQuals == InitialNtQuals() && ntResponsibilities == InitialNtResponsibilities()
      ensures ntTechnical == "Others" && validationErrors == []
    {
      InitialAttendanceOk();
      domain := StudentDomain;
      basicInfo := InitialBasicInfo();
      att1 := InitialAttendance();
      att2 := InitialAttendance();
      prac1 := Practical1("B.Ed.");
      prac2 := Practical2("B.Ed.");
      outreach := InitialOutreach();
      exams := InitialExams();
      sports := InitialSports();
      qualifications := InitialQualifications();
      achievements := Achievements("0", "0", "0", "0");
      adminWorks := AdminWorks("None", "None", "None", "None");
      evalData := Evaluation("0", "0", "0", "0", "0", "0");
      ntQuals := InitialNtQuals();
      ntTechnical := "Others";
      ntResponsibilities := InitialNtResponsibilities();
      validationErrors := [];
    }

    /** A new domain; the practical lists are rebuilt for the programme
        when it is the student domain. */
    method SetDomain(d: PersonDomain)
      modifies this`domain, this`prac1, this`prac2
      ensures domain == d
      ensures d != old(domain) && d == StudentDomain ==>
        prac1 == Practical1(basicInfo.programme) && prac2 == Practical2(basicInfo.programme)
      ensures d == old(domain) || d != StudentDomain ==> prac1 == old(prac1) && prac2 == old(prac2)
    {
      if d != domain {
        domain := d;
        if d == StudentDomain {
          prac1 := Practical1(basicInfo.programme);
          prac2 := Practical2(basicInfo.programme);
        }
      }
    }

    /** Any edit of the basic particulars; a new programme rebuilds the
        practical lists in the student domain. */
    method EditBasicInfo(b: BasicInfo)
      modifies this`basicInfo, this`prac1, this`prac2
      ensures basicInfo == b
      ensures b.programme != old(basicInfo.programme) && domain == StudentDomain ==>
        prac1 == Practical1(b.programme) && prac2 == Practical2(b.programme)
      ensures b.programme == old(basicInfo.programme) || domain != StudentDomain ==>
        prac1 == old(prac1) && prac2 == old(prac2)
    {
      var changed := b.programme != basicInfo.programme;
      basicInfo := b;
      if changed && domain == StudentDomain {
        prac1 := Practical1(b.programme);
        prac2 := Practical2(b.programme);
      }
    }

    /** An achievement input: the log with one count replaced. */
    method EditAchievement(f: AchievementField, value: string)
      modifies this`achievements
      ensures achievements == WithAchievement(old(achievements), f, value)
    {
      achievements := WithAchievement(achievements, f, value);
    }

    /** The presence cell of row `i` in the first or second year's table;
        the other table and the other rows stay as they were. */
    method SetPresentDays(firstYear: bool, i: nat, input: int)
      requires AttendanceValid()
      requires i < |(if firstYear then att1 else att2)|
      modifies this`att1, this`att2
      ensures AttendanceValid()
      ensures firstYear ==> att1 == old(att1)[i := AttendanceEdit(old(att1)[i], input)] && att2 == old(att2)
      ensures !firstYear ==> att2 == old(att2)[i := AttendanceEdit(old(att2)[i], input)] && att1 == old(att1)
    {
      if firstYear {
        AttendanceEditLaws(att1[i], input);
        var r := EditedAttendance(att1, i, input);
        att1 := r;
      } else {
        AttendanceEditLaws(att2[i], input);
        var r := EditedAttendance(att2, i, input);
        att2 := r;
      }
    }

    /** The submitted selector of entry `i` of a year's practical files. */
    method SetSubmitted(firstYear: bool, i: nat, s: Submitted)
      requires i < |(if firstYear then prac1 else prac2)|
      modifies this`prac1, this`prac2
      ensures firstYear ==> prac1 == old(prac1)[i := old(prac1)[i].(submitted := s)] && prac2 == old(prac2)
      ensures !firstYear ==> prac2 == old(prac2)[i := old(prac2)[i].(submitted := s)] && prac1 == old(prac1)
    {
      if firstYear {
        var r := EditedSubmitted(prac1, i, s);
        prac1 := r;
      } else {
        var r := EditedSubmitted(prac2, i, s);
        prac2 := r;
      }
    }

    /** The status list a selector edits. */
    function ListOf(which: StatusList): seq<ParticipationStatus>
      reads this`exams, this`qualifications, this`ntQuals, this`ntResponsibilities
    {
      match which
      case Exams => exams
      case Qualifications => qualifications
      case NtQuals => ntQuals
      case NtResponsibilities => ntResponsibilities
    }

    /** The status selector of entry `i` of an examination, qualification
        or responsibility list; every other list stays as it was. */
    method SetStatus(which: StatusList, i: nat, st: Status)
      requires i < |ListOf(which)|
      modifies this`exams, this`qualifications, this`ntQuals, this`ntResponsibilities
      ensures ListOf(which) == old(ListOf(which))[i := old(ListOf(which))[i].(status := st)]
      ensures forall o :: o != which ==> ListOf(o) == old(ListOf(o))
    {
      var r := EditedStatus(ListOf(which), i, st);
      match which
      case Exams => exams := r;
      case Qualifications => qualifications := r;
      case NtQuals => ntQuals := r;
      case NtResponsibilities => ntResponsibilities := r;
    }

    /** The record the save builds; `id` is the timestamp it is given. */
    function Record(id: string): (r: DataEntryRecord)
      reads this
      ensures r.id == id && r.domain == domain && r.basicInfo == basicInfo
      ensures r.attendance1 == Some(att1) && r.attendance2 == Some(att2)
      ensures FromAcademic(r.academicAchievements) == achievements
      ensures FromAdminWork(r.adminWork) == adminWorks
      ensures r.evaluation == evalData
    {
      DataEntryRecord(id, domain, basicInfo, Some(att1), Some(att2), prac1, prac2,
                      outreach, exams, sports, qualifications,
                      ToAcademic(achievements), ToAdminWork(adminWorks), evalData,
                      ntTechnical, ntResponsibilities)
    }

    /** `handleSave`: with errors they are stored and nothing is saved;
        without, the record is prepended to the registry once the
        administrator confirms. */
    method HandleSave(store: AuthStore.Store, id: string, confirmed: bool)
      modifies this`validationErrors, store`dataRecords
      ensures Validate(basicInfo) != [] ==>
        validationErrors == Validate(basicInfo) && store.dataRecords == old(store.dataRecords)
      ensures Validate(basicInfo) == [] && confirmed ==>
        store.dataRecords == [Record(id)] + old(store.dataRecords)
      ensures Validate(basicInfo) == [] && !confirmed ==> store.dataRecords == old(store.dataRecords)
      ensures Validate(basicInfo) == [] ==> validationErrors == old(validationErrors)
    {
      var errs := Validate(basicInfo);
      if errs != [] {
        validationErrors := errs;
        return;
      }
      if !confirmed {
        return;
      }
      store.AddDataRecord(Record(id));
    }
  }
}
