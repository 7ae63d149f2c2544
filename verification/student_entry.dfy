/** The student's registry data-entry form: the programme effect that
    settles session, year and semester, the educational-detail table, the
    mandatory gate of the save, and the plain-text registry export. */
module StudentEntry {
  import opened Wrappers
  import opened Lists
  import opened Types
  import opened Constants
  import AuthStore

  const DataEntryFormType := "Data Entry"
  const MandateAlert := "Institutional Mandate: Student Name, Admission ID, and Photo are mandatory for registry synchronization."

  // ---------------------------------------------------------------------
  // Educational details
  // ---------------------------------------------------------------------

  /** The four rows the table starts with: the level named, the rest empty. */
  function InitialEduDetails(): seq<EducationalDetail>
  {
    [EducationalDetail("High School (10th)", "", "", "", ""),
     EducationalDetail("Intermediate (12th)", "", "", "", ""),
     EducationalDetail("Graduation (B.A./B.Sc./B.Com)", "", "", "", ""),
     EducationalDetail("Post Graduation", "", "", "", "")]
  }

  lemma InitialEduDetailsShape()
    ensures |InitialEduDetails()| == 4
    ensures forall k :: 0 <= k < 4 ==>
      InitialEduDetails()[k].year == "" && InitialEduDetails()[k].subject == "" &&
      InitialEduDetails()[k].board == "" && InitialEduDetails()[k].result == ""
    ensures InitialEduDetails()[0].programme == "High School (10th)"
    ensures InitialEduDetails()[3].programme == "Post Graduation"
  {
  }

  /** The keys of an educational detail. */
  datatype EduField = EduProgramme | EduYear | EduSubject | EduBoard | EduResult

  function Get(d: EducationalDetail, f: EduField): string
  {
    match f
    case EduProgramme => d.programme
    case EduYear => d.year
    case EduSubject => d.subject
    case EduBoard => d.board
    case EduResult => d.result
  }

  /** `{ ...d, [f]: v }`. */
  function With(d: EducationalDetail, f: EduField, v: string): EducationalDetail
  {
    match f
    case EduProgramme => d.(programme := v)
    case EduYear => d.(year := v)
    case EduSubject => d.(subject := v)
    case EduBoard => d.(board := v)
    case EduResult => d.(result := v)
  }

  /** The spread sets the named field and only it, and a detail is fixed
      by its five fields. */
  lemma WithLaws(d: EducationalDetail, f: EduField, v: string)
    ensures Get(With(d, f, v), f) == v
    ensures forall g :: g != f ==> Get(With(d, f, v), g) == Get(d, g)
    ensures With(d, f, Get(d, f)) == d
    ensures With(With(d, f, v), f, Get(d, f)) == d
  {
  }

  /** `handleEduChange`'s array work: copy the list, then replace entry
      `i` by its spread with the new field value. */
  method EditedEdu(list: seq<EducationalDetail>, i: nat, f: EduField, v: string) returns (r: seq<EducationalDetail>)
    requires i < |list|
    ensures |r| == |list|
    ensures Get(r[i], f) == v
    ensures forall g :: g != f ==> Get(r[i], g) == Get(list[i], g)
    ensures forall j :: 0 <= j < |list| && j != i ==> r[j] == list[j]
  {
    var updated := new EducationalDetail[|list|](k requires 0 <= k < |list| => list[k]);
    WithLaws(updated[i], f, v);
    updated[i] := With(updated[i], f, v);
    r := updated[..];
  }

  // ---------------------------------------------------------------------
  // Programme effect and the gate
  // ---------------------------------------------------------------------

  /** The programme effect: a non-empty programme takes the first session,
      year and semester of its lists; an empty one changes nothing. */
  function Synced(f: StudentFormData): StudentFormData
  {
    if f.programme == "" then f
    else
      f.(session := SessionsForProgramme(f.programme)[0],
         year := YearsForProgramme(f.programme)[0],
         semester := SemestersForProgramme(f.programme)[0])
  }

  /** The lists the selects offer, B.Ed.'s when no programme is set. */
  function Offered(programme: string): string
  {
    if programme == "" then "B.Ed." else programme
  }

  /** After the effect the three selections are offered by the selects and
      are their first entries; nothing else changes, and running the effect
      again changes nothing. */
  lemma SyncedLaws(f: StudentFormData)
    requires f.programme != ""
    ensures Synced(f).session in SessionsForProgramme(Offered(f.programme))
    ensures Synced(f).year == "First Year" && Synced(f).year in YearsForProgramme(Offered(f.programme))
    ensures Synced(f).semester == "First Semester" && Synced(f).semester in SemestersForProgramme(Offered(f.programme))
    ensures Synced(f).(session := f.session, year := f.year, semester := f.semester) == f
    ensures Synced(Synced(f)) == Synced(f)
  {
  }

  /** The integrated programmes start in the integrated pool's first
      session, the others in the standard pool's. */
  lemma SyncedSession(f: StudentFormData)
    requires f.programme != ""
    ensures IsIntegrated(f.programme) ==> Synced(f).session == SessionsIntegrated()[0]
    ensures !IsIntegrated(f.programme) ==> Synced(f).session == SessionsStandard()[0]
  {
  }

  /** The fields the save insists on. */
  predicate MandatoryFilled(f: StudentFormData)
  {
    f.name != "" && f.enrollmentNo != "" && f.photoUrl != ""
  }

  // ---------------------------------------------------------------------
  // The registry text
  // ---------------------------------------------------------------------

  /** The fixed lines before the educational details. */
  function WordHeader(f: StudentFormData, refNo: string): string
  {
    "K.K. UNIVERSITY - SOETR DATA ENTRY REGISTRY\n" +
    "Reference ID: " + refNo + "\n\n" +
    "SECTION A: BASIC INFORMATION\n" +
    "Name: " + f.name + "\n" +
    "Father's Name: " + f.fatherName + "\n" +
    "Mother's Name: " + f.motherName + "\n" +
    "Admission ID: " + f.enrollmentNo + "\n" +
    "Programme: " + f.programme + "\n" +
    "Session: " + f.session + "\n" +
    "Year: " + f.year + "\n" +
    "Semester: " + f.semester + "\n" +
    "Contact: " + f.mobile + "\n" +
    "WhatsApp: " + f.whatsapp + "\n" +
    "Email: " + f.email + "\n" +
    "Address: " + f.address + "\n\n" +
    "SECTION 2: EDUCATIONAL DETAILS\n"
  }

  /** The line of one educational detail. */
  function EduLine(e: EducationalDetail): string
  {
    e.programme + ": Year " + e.year + ", Subject " + e.subject + ", Board " + e.board +
    ", Result " + e.result + "%\n"
  }

  /** The lines of the details, in list order. */
  function EduLines(xs: seq<EducationalDetail>): string
  {
    ConcatMap(xs, EduLine)
  }

  /** The whole registry text. */
  function WordText(f: StudentFormData, refNo: string): string
  {
    WordHeader(f, refNo) + EduLines(f.eduDetails)
  }

  /** The download name. */
  function WordFilename(enrollmentNo: string): string
  {
    "SOETR_Registry_" + enrollmentNo + ".doc"
  }

  /** The admission number is recovered from the download name, so two
      students never share one. */
  lemma WordFilenameRecovers(enrollmentNo: string)
    ensures |WordFilename(enrollmentNo)| == |enrollmentNo| + 19
    ensures WordFilename(enrollmentNo)[15..|WordFilename(enrollmentNo)| - 4] == enrollmentNo
  {
  }

  lemma WordFilenameInjective(a: string, b: string)
    ensures WordFilename(a) == WordFilename(b) ==> a == b
  {
    WordFilenameRecovers(a);
    WordFilenameRecovers(b);
  }

  /** Detail `i`'s line comes after the lines of the details before it and
      before those after it. */
  lemma EduLinesAt(xs: seq<EducationalDetail>, i: nat)
    requires i < |xs|
    ensures EduLines(xs) == EduLines(xs[..i]) + EduLine(xs[i]) + EduLines(xs[i + 1..])
  {
    ConcatMapAt(xs, i, EduLine);
  }

  predicate IsNewline(c: char)
  {
    c == '\n'
  }

  predicate NoNewline(s: string)
  {
    forall k :: 0 <= k < |s| ==> s[k] != '\n'
  }

  predicate DetailOneLine(e: EducationalDetail)
  {
    NoNewline(e.programme) && NoNewline(e.year) && NoNewline(e.subject) &&
    NoNewline(e.board) && NoNewline(e.result)
  }

  lemma CountAppend(a: string, b: string)
    ensures Count(a + b, IsNewline) == Count(a, IsNewline) + Count(b, IsNewline)
  {
    FilterAppend(a, b, IsNewline);
  }

  lemma {:induction false} CountNone(s: string)
    requires NoNewline(s)
    ensures Count(s, IsNewline) == 0
  {
    if s != [] {
      assert s == [s[0]] + s[1..];
      CountPrepend(s[0], s[1..], IsNewline);
      CountNone(s[1..]);
    }
  }

  /** A detail without line breaks in its fields gives exactly one line. */
  lemma EduLineOneBreak(e: EducationalDetail)
    requires DetailOneLine(e)
    ensures Count(EduLine(e), IsNewline) == 1
  {
    var p := e.programme + ": Year " + e.year + ", Subject " + e.subject + ", Board " + e.board +
             ", Result " + e.result + "%";
    assert EduLine(e) == p + "\n";
    assert NoNewline(p) by {
      forall k | 0 <= k < |p| ensures p[k] != '\n' {
        var a := e.programme + ": Year ";
        var b := a + e.year + ", Subject ";
        var c := b + e.subject + ", Board ";
        var d := c + e.board + ", Result ";
        if k < |e.programme| { assert p[k] == e.programme[k]; }
        else if k < |a| { assert p[k] == ": Year "[k - |e.programme|]; }
        else if k < |a| + |e.year| { assert p[k] == e.year[k - |a|]; }
        else if k < |b| { assert p[k] == ", Subject "[k - |a| - |e.year|]; }
        else if k < |b| + |e.subject| { assert p[k] == e.subject[k - |b|]; }
        else if k < |c| { assert p[k] == ", Board "[k - |b| - |e.subject|]; }
        else if k < |c| + |e.board| { assert p[k] == e.board[k - |c|]; }
        else if k < |d| { assert p[k] == ", Result "[k - |c| - |e.board|]; }
        else if k < |d| + |e.result| { assert p[k] == e.result[k - |d|]; }
        else { assert p[k] == "%"[k - |d| - |e.result|]; }
      }
    }
    CountNone(p);
    CountAppend(p, "\n");
    assert Filter("\n", IsNewline) == "\n";
  }

  /** Details without line breaks give one line each. */
  lemma {:induction false} EduLinesBreaks(xs: seq<EducationalDetail>)
    requires forall k :: 0 <= k < |xs| ==> DetailOneLine(xs[k])
    ensures Count(EduLines(xs), IsNewline) == |xs|
  {
    if xs != [] {
      var init := xs[..|xs| - 1];
      EduLinesBreaks(init);
      EduLineOneBreak(xs[|xs| - 1]);
      CountAppend(EduLines(init), EduLine(xs[|xs| - 1]));
    }
  }

  /** The loop of `downloadWord`: `content += line` for each detail, in
      order, after the text built so far. */
  method AppendEduLines(start: string, xs: seq<EducationalDetail>) returns (content: string)
    ensures content == start + EduLines(xs)
  {
    content := start;
    for i := 0 to |xs|
      invariant content == start + EduLines(xs[..i])
    {
      assert xs[..i + 1][..i] == xs[..i];
      content := content + EduLine(xs[i]);
    }
    assert xs[..|xs|] == xs;
  }

  /** The whole text: the header, then the detail lines. */
  method BuildWordText(f: StudentFormData, refNo: string) returns (content: string)
    ensures content == WordText(f, refNo)
  {
    content := AppendEduLines(WordHeader(f, refNo), f.eduDetails);
  }

  datatype Export = Export(content: string, filename: string)

  // ---------------------------------------------------------------------
  // The form
  // ---------------------------------------------------------------------

  /** The form as first shown, after the programme effect has run for B.Ed. */
  function InitialForm(): StudentFormData
  {
    Synced(EmptyForm().(programme := "B.Ed.", eduDetails := InitialEduDetails()))
  }

  lemma InitialFormShape()
    ensures InitialForm().programme == "B.Ed." && InitialForm().session == "2024-2026"
    ensures InitialForm().year == "First Year" && InitialForm().semester == "First Semester"
    ensures InitialForm().eduDetails == InitialEduDetails() && InitialForm().name == ""
  {
  }

  class RegistryState {
    var form: StudentFormData
    var refNo: string
    var submitted: bool

    constructor()
      ensures form == InitialForm() && refNo == "" && !submitted
    {
      form := InitialForm();
      refNo := "";
      submitted := false;
    }

    /** The mount effect: one reference number drawn from the store. */
    method Mount(store: AuthStore.Store, year: nat)
      modifies this`refNo, store`refCounter
      ensures refNo == AuthStore.RefNo(year, old(store.refCounter))
      ensures store.refCounter == old(store.refCounter) + 1
    {
      refNo := store.GenerateRefNo(year);
    }

    /** The programme select; a new programme runs the effect. */
    method SetProgramme(p: string)
      modifies this`form
      ensures p == old(form.programme) ==> form == old(form)
      ensures p != old(form.programme) ==> form == Synced(old(form).(programme := p))
    {
      if p != form.programme {
        form := Synced(form.(programme := p));
      }
    }

    /** Any other input: the particulars, session, year, semester, photo. */
    method EditDetails(f: StudentFormData)
      requires f.programme == form.programme && f.eduDetails == form.eduDetails
      modifies this`form
      ensures form == f
    {
      form := f;
    }

    /** `handleEduChange(i, f, v)`. */
    method HandleEduChange(i: nat, f: EduField, v: string)
      requires i < |form.eduDetails|
      modifies this`form
      ensures form == old(form).(eduDetails := old(form.eduDetails)[i := With(old(form.eduDetails)[i], f, v)])
    {
      var updated := EditedEdu(form.eduDetails, i, f, v);
      forall g ensures Get(updated[i], g) == Get(With(form.eduDetails[i], f, v), g) {
        WithLaws(form.eduDetails[i], f, v);
      }
      assert updated[i] == With(form.eduDetails[i], f, v) by {
        assert Get(updated[i], EduProgramme) == Get(With(form.eduDetails[i], f, v), EduProgramme);
        assert Get(updated[i], EduYear) == Get(With(form.eduDetails[i], f, v), EduYear);
        assert Get(updated[i], EduSubject) == Get(With(form.eduDetails[i], f, v), EduSubject);
        assert Get(updated[i], EduBoard) == Get(With(form.eduDetails[i], f, v), EduBoard);
        assert Get(updated[i], EduResult) == Get(With(form.eduDetails[i], f, v), EduResult);
      }
      form := form.(eduDetails := updated);
    }

    /** The submission the save files. */
    function Entry(date: string): MockSubmission
      reads this`form, this`refNo
    {
      MockSubmission(refNo, date, form.enrollmentNo, form.name, form.programme, DataEntryFormType,
                     None, FormPayload(form), false)
    }

    /** `handleVerifyAndSave`: refused with the mandate alert unless name,
        admission number and photo are present; otherwise, once confirmed,
        the entry is prepended to the submissions. */
    method HandleVerifyAndSave(store: AuthStore.Store, date: string, confirmed: bool) returns (alert: Option<string>)
      modifies this`submitted, store`submissions
      ensures alert.Some? <==> !MandatoryFilled(form)
      ensures alert.Some? ==> alert.value == MandateAlert
      ensures MandatoryFilled(form) && confirmed ==>
        store.submissions == [Entry(date)] + old(store.submissions) && submitted
      ensures !(MandatoryFilled(form) && confirmed) ==>
        store.submissions == old(store.submissions) && submitted == old(submitted)
    {
      if !MandatoryFilled(form) {
        return Some(MandateAlert);
      }
      alert := None;
      if confirmed {
        store.AddSubmission(Entry(date));
        submitted := true;
      }
    }

    /** `downloadWord`: the registry text and its file name. */
    method DownloadWord() returns (e: Export)
      ensures e.content == WordText(form, refNo)
      ensures e.filename == WordFilename(form.enrollmentNo)
    {
      var content := BuildWordText(form, refNo);
      e := Export(content, WordFilename(form.enrollmentNo));
    }
  }
}
