/** The examination form: the course list of a (programme, session,
    year, semester) choice, the elective selection engine, the completeness
    check, the titles and marks of the registered courses, and the form's
    state with its settled effects and its entry/verify/success views. */
module ExamForm {
  import opened Wrappers
  import opened Strings
  import opened Lists
  import opened Types
  import opened Constants
  import opened Curriculum
  import BasicInfo
  import AuthStore

  /** A selection: one title, or the titles ticked on a multi-select row. */
  datatype Choice = Single(value: string) | Multi(values: seq<string>)

  datatype View = Entry | Verify | Success

  // ---------------------------------------------------------------------
  // Course lookup
  // ---------------------------------------------------------------------

  /** M.Ed. and D.El.Ed. courses do not depend on the batch. */
  function SessionKey(programme: string, session: string): string
  {
    if programme == "M.Ed." || programme == "D.El.Ed." then "All" else session
  }

  /** The year label in annual mode, the semester label in semester mode. */
  function LeafKey(programme: string, session: string, year: string, semester: string): string
  {
    if !IsSemesterSystem(programme, session) then year else semester
  }

  /** The leaf of the table a choice reaches, if any: every missing level
      gives nothing. */
  function LeafFor(programme: string, session: string, year: string, semester: string): Option<Leaf>
  {
    if programme == "" || session == "" || year == "" then None
    else if programme !in Catalog() then None
    else
      var key := SessionKey(programme, session);
      if key !in Catalog()[programme] then None
      else
        var leaf := LeafKey(programme, session, year, semester);
        if leaf !in Catalog()[programme][key] then None
        else Some(Catalog()[programme][key][leaf])
  }

  /** A leaf is reached only through a listed programme, batch key and
      year or semester key, and it is the table's entry there. */
  lemma LeafForLaws(programme: string, session: string, year: string, semester: string)
    ensures var r := LeafFor(programme, session, year, semester);
      (programme == "" || session == "" || year == "" ==> r == None) &&
      (programme !in Catalog() ==> r == None) &&
      (r.Some? ==>
         programme in Catalog() &&
         SessionKey(programme, session) in Catalog()[programme] &&
         LeafKey(programme, session, year, semester) in Catalog()[programme][SessionKey(programme, session)] &&
         r.value == Catalog()[programme][SessionKey(programme, session)][LeafKey(programme, session, year, semester)])
  {
  }

  /** `currentSubjects`: the rows of the leaf reached, or none. */
  function CurrentSubjects(programme: string, session: string, year: string, semester: string): (r: seq<Subject>)
  {
    match LeafFor(programme, session, year, semester)
    case None => []
    case Some(leaf) => Rows(leaf)
  }

  /** For M.Ed. and D.El.Ed. the chosen batch does not matter. */
  lemma SessionIgnored(programme: string, s1: string, s2: string, year: string, semester: string)
    requires programme == "M.Ed." || programme == "D.El.Ed."
    requires s1 != "" && s2 != ""
    ensures LeafFor(programme, s1, year, semester) == LeafFor(programme, s2, year, semester)
  {
    SemesterSystemOnProgrammes(s1);
    SemesterSystemOnProgrammes(s2);
  }

  /** The B.Ed. batch of 2024-2026 is looked up by year, whatever the
      semester. */
  lemma LookupBEdAnnual(semester: string)
    ensures LeafFor("B.Ed.", "2024-2026", "First Year", semester) == Some(BEd2024Year1)
    ensures LeafFor("B.Ed.", "2024-2026", "Second Year", semester) == Some(BEd2024Year2)
  {
    SemesterSystemOnProgrammes("2024-2026");
    BEdAnnualEntries();
  }

  lemma BEdAnnualEntries()
    ensures "B.Ed." in Catalog() && "2024-2026" in Catalog()["B.Ed."]
    ensures "First Year" in Catalog()["B.Ed."]["2024-2026"] && "Second Year" in Catalog()["B.Ed."]["2024-2026"]
    ensures Catalog()["B.Ed."]["2024-2026"]["First Year"] == BEd2024Year1
    ensures Catalog()["B.Ed."]["2024-2026"]["Second Year"] == BEd2024Year2
  {
  }

  /** The B.Ed. batch of 2025-2027 is looked up by semester, whatever the
      year. */
  lemma LookupBEdSemester(year: string)
    requires year != ""
    ensures LeafFor("B.Ed.", "2025-2027", year, "First Semester") == Some(BEd2025Sem1)
    ensures LeafFor("B.Ed.", "2025-2027", year, "Fourth Semester") == Some(BEd2025Sem4)
  {
    SemesterSystemOnProgrammes("2025-2027");
  }

  /** M.Ed. is looked up by semester and D.El.Ed. by year, whatever the
      batch. */
  lemma LookupMEdDElEd(session: string, year: string, semester: string)
    requires session != "" && year != ""
    ensures LeafFor("M.Ed.", session, year, "Second Semester") == Some(MEdSem2)
    ensures LeafFor("D.El.Ed.", session, "First Year", semester) == Some(DElEdYear1)
  {
    SemesterSystemOnProgrammes(session);
    MEdEntry();
    DElEdEntry();
  }

  lemma MEdEntry()
    ensures "M.Ed." in Catalog() && "All" in Catalog()["M.Ed."]
    ensures "Second Semester" in Catalog()["M.Ed."]["All"]
    ensures Catalog()["M.Ed."]["All"]["Second Semester"] == MEdSem2
  {
  }

  lemma DElEdEntry()
    ensures "D.El.Ed." in Catalog() && "All" in Catalog()["D.El.Ed."]
    ensures "First Year" in Catalog()["D.El.Ed."]["All"]
    ensures Catalog()["D.El.Ed."]["All"]["First Year"] == DElEdYear1
  {
  }

  /** A batch or a programme the table does not list finds nothing. */
  lemma LookupMissing(session: string, year: string, semester: string)
    ensures LeafFor("B.Ed.", "2026-2028", year, semester) == None
    ensures LeafFor("Ph.D.", session, year, semester) == None
  {
  }

  /** The set of labels of a list. */
  function LabelSet(xs: seq<string>): set<string>
  {
    set x | x in xs
  }

  /** The index has exactly the programmes and session keys listed. */
  lemma CatalogKeys()
    ensures Catalog().Keys == {"B.Ed.", "M.Ed.", "D.El.Ed."}
    ensures Catalog()["B.Ed."].Keys == {"2024-2026", "2025-2027"}
    ensures Catalog()["M.Ed."].Keys == {"All"} && Catalog()["D.El.Ed."].Keys == {"All"}
  {
  }

  /** The labels of the two-year programmes. */
  lemma TwoYearLabels(programme: string)
    requires !IsIntegrated(programme)
    ensures LabelSet(YearsForProgramme(programme)) == {"First Year", "Second Year"}
    ensures LabelSet(SemestersForProgramme(programme)) ==
      {"First Semester", "Second Semester", "Third Semester", "Fourth Semester"}
  {
    var ys := YearsForProgramme(programme);
    assert ys == ["First Year", "Second Year"];
    var ms := SemestersForProgramme(programme);
    assert ms == ["First Semester", "Second Semester", "Third Semester", "Fourth Semester"];
  }

  /** The index and the semester rule agree on the annual B.Ed. batch:
      it is keyed by the programme's year labels. */
  lemma CoherentBEdAnnual()
    ensures !IsSemesterSystem("B.Ed.", "2024-2026")
    ensures Catalog()["B.Ed."]["2024-2026"].Keys == LabelSet(YearsForProgramme("B.Ed."))
  {
    assert !IsIntegrated("B.Ed.");
    TwoYearLabels("B.Ed.");
  }

  /** The 2025-2027 B.Ed. batch is semester-based and keyed by the
      programme's semester labels. */
  lemma CoherentBEdSemester()
    ensures IsSemesterSystem("B.Ed.", "2025-2027")
    ensures Catalog()["B.Ed."]["2025-2027"].Keys == LabelSet(SemestersForProgramme("B.Ed."))
  {
    SemesterSystemOnProgrammes("2025-2027");
    assert !IsIntegrated("B.Ed.");
    TwoYearLabels("B.Ed.");
  }

  /** M.Ed. is semester-based and keyed by semester labels. */
  lemma CoherentMEd()
    ensures IsSemesterSystem("M.Ed.", "All")
    ensures Catalog()["M.Ed."]["All"].Keys == LabelSet(SemestersForProgramme("M.Ed."))
  {
    assert !IsIntegrated("M.Ed.");
    TwoYearLabels("M.Ed.");
  }

  /** D.El.Ed. is annual and keyed by year labels. */
  lemma CoherentDElEd()
    ensures !IsSemesterSystem("D.El.Ed.", "All")
    ensures Catalog()["D.El.Ed."]["All"].Keys == LabelSet(YearsForProgramme("D.El.Ed."))
  {
    assert !IsIntegrated("D.El.Ed.");
    TwoYearLabels("D.El.Ed.");
  }

  // ---------------------------------------------------------------------
  // The elective selection engine
  // ---------------------------------------------------------------------

  /** The cap of a multi-select row: its `maxSelection`, or 2 when the row
      is not found or carries none (or 0). */
  function MaxFor(subjects: seq<Subject>, code: string): (r: nat)
    ensures r > 0
  {
    match FindFirst(subjects, (s: Subject) => s.code == code)
    case None => 2
    case Some(i) =>
      match subjects[i].maxSelection
      case None => 2
      case Some(m) => if m == 0 then 2 else m
  }

  /** The one-letter strings of `s`, as spreading a string gives them. */
  function Letters(s: string): (r: seq<string>)
    ensures |r| == |s|
  {
    seq(|s|, i requires 0 <= i < |s| => [s[i]])
  }

  /** `handleElectiveChange`. A single choice overwrites the code's entry.
      A multi choice removes the value when present and otherwise appends
      it while the list is below the cap. A missing entry, or an empty
      single title, counts as the empty list; a non-empty single title
      found under a multi toggle behaves as the string it is: when it
      contains the value the removal throws and nothing changes, otherwise
      it is spread into letters before the append. */
  function HandleElectiveChange(sel: map<string, Choice>, subjects: seq<Subject>,
                                code: string, value: string, isMulti: bool): (r: map<string, Choice>)
    ensures r.Keys == sel.Keys + {code} || r == sel
    ensures forall c :: c in sel && c != code ==> c in r && r[c] == sel[c]
    ensures !isMulti ==> r == sel[code := Single(value)]
  {
    if !isMulti then sel[code := Single(value)]
    else if code in sel && sel[code].Single? && sel[code].value != "" then
      var s := sel[code].value;
      if Contains(s, value) then sel
      else if |s| < MaxFor(subjects, code) then sel[code := Multi(Letters(s) + [value])]
      else sel
    else
      var current := if code in sel && sel[code].Multi? then sel[code].values else [];
      if value in current then sel[code := Multi(Untick(current, value))]
      else if |current| < MaxFor(subjects, code) then sel[code := Multi(current + [value])]
      else sel
  }

  /** A ticked list with one value unticked. */
  function Untick(xs: seq<string>, value: string): seq<string>
  {
    Filter(xs, (v: string) => v != value)
  }

  /** Unticking the value just ticked gives the list back. */
  lemma UntickAppended(xs: seq<string>, value: string)
    requires value !in xs
    ensures Untick(xs + [value], value) == xs
  {
    var keep := (v: string) => v != value;
    FilterAppend(xs, [value], keep);
    FilterKeepsAll(xs, keep);
    assert Filter([value], keep) == [];
  }

  predicate NoDuplicates(xs: seq<string>)
  {
    forall i, j :: 0 <= i < j < |xs| ==> xs[i] != xs[j]
  }

  /** Every ticked list is free of duplicates and within its cap. */
  predicate ListsWellFormed(sel: map<string, Choice>, subjects: seq<Subject>)
  {
    forall c :: c in sel && sel[c].Multi? ==>
      NoDuplicates(sel[c].values) && |sel[c].values| <= MaxFor(subjects, c)
  }

  /** A multi toggle on a list (or on nothing) keeps every list free of
      duplicates and within its cap. */
  lemma ToggleKeepsWellFormed(sel: map<string, Choice>, subjects: seq<Subject>, code: string, value: string)
    requires ListsWellFormed(sel, subjects)
    requires code in sel ==> sel[code].Multi? || sel[code].value == ""
    ensures ListsWellFormed(HandleElectiveChange(sel, subjects, code, value, true), subjects)
  {
    var r := HandleElectiveChange(sel, subjects, code, value, true);
    var current := if code in sel && sel[code].Multi? then sel[code].values else [];
    if value in current {
      var kept := Untick(current, value);
      FilterOrdered(current, (v: string) => v != value);
      SubseqNoDuplicates(kept, current);
    } else if |current| < MaxFor(subjects, code) {
      assert r[code].values == current + [value];
    }
  }

  /** A subsequence of a duplicate-free list is duplicate-free. */
  lemma {:induction false} SubseqNoDuplicates(xs: seq<string>, ys: seq<string>)
    requires IsSubseq(xs, ys) && NoDuplicates(ys)
    ensures NoDuplicates(xs)
    decreases |ys|
  {
    if xs != [] {
      if xs[0] == ys[0] && IsSubseq(xs[1..], ys[1..]) {
        SubseqNoDuplicates(xs[1..], ys[1..]);
        SubseqMembers(xs[1..], ys[1..]);
        assert forall j :: 0 < j < |xs| ==> xs[j] in ys[1..];
        forall i, j | 0 <= i < j < |xs| ensures xs[i] != xs[j] {
          if i == 0 {
            assert xs[j] in ys[1..];
          } else {
            assert xs[1..][i - 1] != xs[1..][j - 1];
          }
        }
      } else {
        SubseqNoDuplicates(xs, ys[1..]);
      }
    }
  }

  /** Every element of a subsequence is an element of the list. */
  lemma {:induction false} SubseqMembers(xs: seq<string>, ys: seq<string>)
    requires IsSubseq(xs, ys)
    ensures forall x :: x in xs ==> x in ys
    decreases |ys|
  {
    if xs != [] {
      if xs[0] == ys[0] && IsSubseq(xs[1..], ys[1..]) {
        SubseqMembers(xs[1..], ys[1..]);
        assert forall x :: x in xs ==> x == xs[0] || x in xs[1..];
      } else {
        SubseqMembers(xs, ys[1..]);
      }
    }
  }

  /** On a full list a new value is ignored. */
  lemma PickBeyondCapIgnored(sel: map<string, Choice>, subjects: seq<Subject>, code: string, value: string)
    requires code in sel && sel[code].Multi?
    requires value !in sel[code].values && |sel[code].values| >= MaxFor(subjects, code)
    ensures HandleElectiveChange(sel, subjects, code, value, true) == sel
  {
  }

  /** Ticking a new value while there is room, then ticking it again,
      restores the list. */
  lemma ToggleTwiceRestores(sel: map<string, Choice>, subjects: seq<Subject>, code: string, value: string)
    requires code in sel && sel[code].Multi?
    requires value !in sel[code].values && |sel[code].values| < MaxFor(subjects, code)
    ensures HandleElectiveChange(HandleElectiveChange(sel, subjects, code, value, true), subjects, code, value, true) == sel
  {
    var xs := sel[code].values;
    MultiToggle(sel, subjects, code, value);
    var once := sel[code := Multi(xs + [value])];
    assert value in xs + [value] by { assert (xs + [value])[|xs|] == value; }
    MultiToggle(once, subjects, code, value);
    UntickAppended(xs, value);
    assert once[code := Multi(Untick(xs + [value], value))] == sel[code := Multi(xs)];
    assert sel[code := Multi(xs)] == sel;
  }

  /** A multi toggle on a ticked list: remove when present, append while
      below the cap, otherwise nothing. */
  lemma MultiToggle(sel: map<string, Choice>, subjects: seq<Subject>, code: string, value: string)
    requires code in sel && sel[code].Multi?
    ensures var xs := sel[code].values;
      HandleElectiveChange(sel, subjects, code, value, true) ==
        if value in xs then sel[code := Multi(Untick(xs, value))]
        else if |xs| < MaxFor(subjects, code) then sel[code := Multi(xs + [value])]
        else sel
  {
  }

  // ---------------------------------------------------------------------
  // Completeness
  // ---------------------------------------------------------------------

  /** The number of choices an elective needs: its `maxSelection`, or 1. */
  function Required(s: Subject): (r: nat)
    ensures r > 0
  {
    match s.maxSelection
    case None => 1
    case Some(m) => if m == 0 then 1 else m
  }

  /** An elective whose choice is missing, an empty title, or a list
      shorter than what it needs. An empty list is not missing. */
  predicate Pending(s: Subject, sel: map<string, Choice>)
  {
    s.isElective &&
    (s.code !in sel ||
     (sel[s.code].Single? && sel[s.code].value == "") ||
     (sel[s.code].Multi? && |sel[s.code].values| < Required(s)))
  }

  function PendingMessage(name: string): string
  {
    "Curricular Error: Choice selection pending for " + name + "."
  }

  /** One message per pending elective, in course order. */
  function PendingMessages(subjects: seq<Subject>, sel: map<string, Choice>): (r: seq<string>)
    ensures |r| <= |subjects|
  {
    if subjects == [] then []
    else
      (if Pending(subjects[0], sel) then [PendingMessage(subjects[0].name)] else []) +
      PendingMessages(subjects[1..], sel)
  }

  /** No message exactly when no course is pending. */
  lemma {:induction false} PendingMessagesEmpty(subjects: seq<Subject>, sel: map<string, Choice>)
    ensures PendingMessages(subjects, sel) == [] <==> forall i :: 0 <= i < |subjects| ==> !Pending(subjects[i], sel)
  {
    if subjects != [] {
      PendingMessagesEmpty(subjects[1..], sel);
      assert forall i :: 1 <= i < |subjects| ==> subjects[i] == subjects[1..][i - 1];
    }
  }

  /** The messages of a concatenation are the messages of the parts, in
      order: one message per pending course, in course order. */
  lemma {:induction false} PendingMessagesAppend(xs: seq<Subject>, ys: seq<Subject>, sel: map<string, Choice>)
    ensures PendingMessages(xs + ys, sel) == PendingMessages(xs, sel) + PendingMessages(ys, sel)
  {
    if xs == [] {
      assert xs + ys == ys;
    } else {
      assert (xs + ys)[0] == xs[0];
      assert (xs + ys)[1..] == xs[1..] + ys;
      PendingMessagesAppend(xs[1..], ys, sel);
    }
  }

  /** There are exactly as many messages as pending courses. */
  lemma {:induction false} PendingMessagesCount(subjects: seq<Subject>, sel: map<string, Choice>)
    ensures |PendingMessages(subjects, sel)| == Count(subjects, (s: Subject) => Pending(s, sel))
  {
    if subjects != [] {
      PendingMessagesCount(subjects[1..], sel);
      assert subjects == [subjects[0]] + subjects[1..];
      CountPrepend(subjects[0], subjects[1..], (s: Subject) => Pending(s, sel));
    }
  }

  // ---------------------------------------------------------------------
  // Titles and marks
  // ---------------------------------------------------------------------

  /** The `selectedTitle` stored with a course: the name of a core course,
      the joined list or the single title of an elective, and nothing
      when the elective has no entry. */
  function SelectedTitle(s: Subject, sel: map<string, Choice>): Option<string>
  {
    if !s.isElective then Some(s.name)
    else if s.code !in sel then None
    else
      match sel[s.code]
      case Multi(xs) => Some(Join(xs, " & "))
      case Single(v) => Some(v)
  }

  /** The title printed in the course table: as stored, except that an
      elective without a (non-empty) single title reads
      "PENDING SELECTION". */
  function DisplayTitle(s: Subject, sel: map<string, Choice>): string
  {
    if !s.isElective then s.name
    else if s.code in sel && sel[s.code].Multi? then Join(sel[s.code].values, " & ")
    else if s.code in sel && sel[s.code].value != "" then sel[s.code].value
    else "PENDING SELECTION"
  }

  /** Once a course is not pending, the stored title is the printed one;
      an elective with no entry prints the pending marker. */
  lemma TitlesAgree(s: Subject, sel: map<string, Choice>)
    ensures !Pending(s, sel) ==> SelectedTitle(s, sel) == Some(DisplayTitle(s, sel))
    ensures s.isElective && s.code !in sel ==> DisplayTitle(s, sel) == "PENDING SELECTION" && SelectedTitle(s, sel).None?
    ensures !s.isElective ==> SelectedTitle(s, sel) == Some(s.name) && DisplayTitle(s, sel) == s.name
  {
  }

  /** `processedSubjects`: every course, in order, with its stored title. */
  function Processed(subjects: seq<Subject>, sel: map<string, Choice>): (r: seq<ProcessedSubject>)
    ensures |r| == |subjects|
    ensures forall i :: 0 <= i < |r| ==> r[i].subject == subjects[i]
  {
    seq(|subjects|, i requires 0 <= i < |subjects| => ProcessedSubject(subjects[i], SelectedTitle(subjects[i], sel)))
  }

  /** With nothing pending, every stored title is the printed one. */
  lemma ProcessedMatchesDisplay(subjects: seq<Subject>, sel: map<string, Choice>)
    requires PendingMessages(subjects, sel) == []
    ensures forall i :: 0 <= i < |subjects| ==>
      Processed(subjects, sel)[i].selectedTitle == Some(DisplayTitle(subjects[i], sel))
  {
    PendingMessagesEmpty(subjects, sel);
    forall i | 0 <= i < |subjects|
      ensures Processed(subjects, sel)[i].selectedTitle == Some(DisplayTitle(subjects[i], sel))
    {
      TitlesAgree(subjects[i], sel);
    }
  }

  /** The aggregate of the maximum marks. */
  function TotalMarks(subjects: seq<Subject>): nat
  {
    if subjects == [] then 0 else subjects[0].mm + TotalMarks(subjects[1..])
  }

  function TotalInternal(subjects: seq<Subject>): nat
  {
    if subjects == [] then 0 else subjects[0].ie + TotalInternal(subjects[1..])
  }

  function TotalExternal(subjects: seq<Subject>): nat
  {
    if subjects == [] then 0 else subjects[0].ee + TotalExternal(subjects[1..])
  }

  /** The total of a concatenation is the sum of the totals. */
  lemma {:induction false} TotalMarksAppend(xs: seq<Subject>, ys: seq<Subject>)
    ensures TotalMarks(xs + ys) == TotalMarks(xs) + TotalMarks(ys)
  {
    if xs == [] {
      assert xs + ys == ys;
    } else {
      assert (xs + ys)[0] == xs[0];
      assert (xs + ys)[1..] == xs[1..] + ys;
      TotalMarksAppend(xs[1..], ys);
    }
  }

  /** On well-formed rows the aggregate is the internal plus the external
      total. */
  lemma {:induction false} TotalMarksSplits(subjects: seq<Subject>)
    requires forall i :: 0 <= i < |subjects| ==> RowOk(subjects[i])
    ensures TotalMarks(subjects) == TotalInternal(subjects) + TotalExternal(subjects)
  {
    if subjects != [] {
      assert RowOk(subjects[0]);
      assert forall i :: 0 <= i < |subjects[1..]| ==> subjects[1..][i] == subjects[i + 1];
      TotalMarksSplits(subjects[1..]);
    }
  }

  // ---------------------------------------------------------------------
  // Verification of the whole form
  // ---------------------------------------------------------------------

  const MsgAddress := "Audit Alert: Correspondence address is mandatory."
  const MsgSignature := "Identity Alert: Digital signature artifact is mandatory."

  /** `handleInitialVerify`'s list: the basic-information messages, the
      address and signature messages, then one per pending elective. */
  function VerifyErrors(form: StudentFormData, sel: map<string, Choice>, subjects: seq<Subject>): seq<string>
  {
    BasicInfo.ValidateBasicInfo(form) +
    (if IsBlank(form.address) then [MsgAddress] else []) +
    (if form.studentSignatureUrl == "" then [MsgSignature] else []) +
    PendingMessages(subjects, sel)
  }

  /** The form may move on exactly when the basic information passes, the
      address is not blank, a signature is present and no elective is
      pending. */
  lemma VerifyErrorsEmpty(form: StudentFormData, sel: map<string, Choice>, subjects: seq<Subject>)
    ensures VerifyErrors(form, sel, subjects) == [] <==>
      BasicInfo.AllChecksPass(form) && !AllWhitespace(form.address) &&
      form.studentSignatureUrl != "" &&
      forall i :: 0 <= i < |subjects| ==> !Pending(subjects[i], sel)
  {
    BasicInfo.ValidIffAllChecksPass(form);
    BlankIffAllWhitespace(form.address);
    PendingMessagesEmpty(subjects, sel);
  }

  // ---------------------------------------------------------------------
  // Settled effects
  // ---------------------------------------------------------------------

  /** The exam nature the normalisation effect chooses. */
  function NatureFor(programme: string, session: string): string
  {
    if IsSemesterSystem(programme, session) then "Odd Semester Examination" else "Annual Examination"
  }

  /** The normalisation effect: keep the year and semester when the
      programme lists them, else take the first label, and set the exam
      nature from the semester rule. */
  function Normalise(f: StudentFormData): (r: StudentFormData)
  {
    var years := YearsForProgramme(f.programme);
    var sems := SemestersForProgramme(f.programme);
    f.(year := if f.year in years then f.year else years[0],
       semester := if f.semester in sems then f.semester else sems[0],
       examNature := NatureFor(f.programme, f.session))
  }

  predicate Normalised(f: StudentFormData)
  {
    f.year in YearsForProgramme(f.programme) &&
    f.semester in SemestersForProgramme(f.programme) &&
    f.examNature == NatureFor(f.programme, f.session)
  }

  /** The effect lands on a normalised form, keeps labels that are listed,
      changes nothing else, and a second run changes nothing: this is why
      the state after one action is the settled one. */
  lemma NormaliseLaws(f: StudentFormData)
    ensures Normalised(Normalise(f))
    ensures Normalise(Normalise(f)) == Normalise(f)
    ensures Normalised(f) ==> Normalise(f) == f
    ensures f.year in YearsForProgramme(f.programme) ==> Normalise(f).year == f.year
    ensures f.year !in YearsForProgramme(f.programme) ==> Normalise(f).year == "First Year"
    ensures f.semester !in SemestersForProgramme(f.programme) ==> Normalise(f).semester == "First Semester"
    ensures Normalise(f).(year := f.year, semester := f.semester, examNature := f.examNature) == f
  {
  }

  /** The initial form: B.Ed. 2024-2026, first year and semester, the
      annual January 2025 examination, dated by the caller. */
  function InitialForm(formDate: string): StudentFormData
  {
    EmptyForm().(programme := "B.Ed.", session := "2024-2026", year := "First Year",
                 semester := "First Semester", examNature := "Annual Examination",
                 examMonth := "January", examYear := "2025", formDate := formDate)
  }

  /** The initial form is already normalised and lists the first-year
      B.Ed. courses of the 2024-2026 batch. */
  lemma InitialFormSettled(formDate: string)
    ensures Normalised(InitialForm(formDate))
    ensures LeafFor("B.Ed.", "2024-2026", "First Year", "First Semester") == Some(BEd2024Year1)
  {
    SemesterSystemOnProgrammes("2024-2026");
    LookupBEdAnnual("First Semester");
  }

  /** The form's state. `subjects` is the memoised course list of the
      current choice: every action that changes the choice recomputes it. */
  class ExamFormState {
    var form: StudentFormData
    var electives: map<string, Choice>
    var view: View
    var errors: seq<string>
    var refNo: string
    var subjects: seq<Subject>

    /** The class invariant: the memoised course list (`currentSubjects`)
        agrees with the programme, batch, year and semester chosen. */
    predicate Valid()
      reads this`form, this`subjects
    {
      subjects == CurrentSubjects(form.programme, form.session, form.year, form.semester)
    }

    /** The form as first shown: the initial form, its course list, no
        selection and no reference number yet. */
    constructor(formDate: string)
      ensures form == InitialForm(formDate) && Valid()
      ensures electives == map[] && view == Entry && errors == [] && refNo == ""
    {
      var f := InitialForm(formDate);
      form := f;
      electives := map[];
      view := Entry;
      errors := [];
      refNo := "";
      subjects := CurrentSubjects(f.programme, f.session, f.year, f.semester);
    }

    /** The mount effect: one reference number drawn from the store. */
    method Mount(store: AuthStore.Store, year: nat)
      requires Valid()
      modifies this`refNo, store`refCounter
      ensures Valid()
      ensures refNo == AuthStore.RefNo(year, old(store.refCounter))
      ensures store.refCounter == old(store.refCounter) + 1
    {
      refNo := store.GenerateRefNo(year);
    }

    /** A new programme: the session becomes its first batch, then the
        form is normalised, the course list recomputed and the selections
        wiped. Choosing the current programme again changes nothing. */
    method SetProgramme(p: string)
      requires Valid()
      modifies this`form, this`electives, this`subjects
      ensures Valid()
      ensures p == old(form.programme) ==>
        form == old(form) && electives == old(electives) && subjects == old(subjects)
      ensures p != old(form.programme) ==>
        form == Normalise(old(form).(programme := p, session := SessionsForProgramme(p)[0])) &&
        electives == map[]
      ensures p != old(form.programme) ==> Normalised(form)
    {
      if p != form.programme {
        form := Normalise(form.(programme := p, session := SessionsForProgramme(p)[0]));
        electives := map[];
        subjects := CurrentSubjects(form.programme, form.session, form.year, form.semester);
        NormaliseLaws(form);
      }
    }

    /** A new batch: the form is normalised, the course list recomputed
        and the selections wiped. */
    method SetSession(s: string)
      requires Valid()
      modifies this`form, this`electives, this`subjects
      ensures Valid()
      ensures s == old(form.session) ==>
        form == old(form) && electives == old(electives) && subjects == old(subjects)
      ensures s != old(form.session) ==> form == Normalise(old(form).(session := s)) && electives == map[]
      ensures s != old(form.session) ==> Normalised(form)
    {
      if s != form.session {
        form := Normalise(form.(session := s));
        electives := map[];
        subjects := CurrentSubjects(form.programme, form.session, form.year, form.semester);
        NormaliseLaws(form);
      }
    }

    /** A new year: the course list is recomputed and the selections are
        wiped; the normalisation effect does not depend on the year and
        does not run. */
    method SetYear(y: string)
      requires Valid()
      modifies this`form, this`electives, this`subjects
      ensures Valid()
      ensures form == old(form).(year := y)
      ensures y == old(form.year) ==> electives == old(electives) && subjects == old(subjects)
      ensures y != old(form.year) ==> electives == map[]
    {
      if y != form.year {
        form := form.(year := y);
        electives := map[];
        subjects := CurrentSubjects(form.programme, form.session, form.year, form.semester);
      }
    }

    /** A new semester: the course list is recomputed and the selections
        are wiped. */
    method SetSemester(m: string)
      requires Valid()
      modifies this`form, this`electives, this`subjects
      ensures Valid()
      ensures form == old(form).(semester := m)
      ensures m == old(form.semester) ==> electives == old(electives) && subjects == old(subjects)
      ensures m != old(form.semester) ==> electives == map[]
    {
      if m != form.semester {
        form := form.(semester := m);
        electives := map[];
        subjects := CurrentSubjects(form.programme, form.session, form.year, form.semester);
      }
    }

    /** Any other field edit: no effect depends on it, so the course list
        stays current. */
    method EditDetails(f: StudentFormData)
      requires f.programme == form.programme && f.session == form.session
      requires f.year == form.year && f.semester == form.semester
      requires Valid()
      modifies this`form
      ensures form == f && Valid()
    {
      form := f;
    }

    method ElectiveChange(code: string, value: string, isMulti: bool)
      requires Valid()
      modifies this`electives
      ensures Valid()
      ensures electives == HandleElectiveChange(old(electives), subjects, code, value, isMulti)
    {
      electives := HandleElectiveChange(electives, subjects, code, value, isMulti);
    }

    /** `handleInitialVerify`: the verify view only with an empty list;
        otherwise the list is kept for display and the view stays. */
    method InitialVerify()
      requires view == Entry && Valid()
      modifies this`view, this`errors
      ensures Valid()
      ensures errors == VerifyErrors(form, electives, subjects)
      ensures view == (if errors == [] then Verify else Entry)
    {
      var f, sel, subs := form, electives, subjects;
      var e := VerifyErrors(f, sel, subs);
      var v := if e == [] then Verify else Entry;
      errors, view := e, v;
    }

    /** "Modify" returns to the entry view. */
    method Modify()
      requires view == Verify && Valid()
      modifies this`view
      ensures Valid()
      ensures view == Entry
    {
      view := Entry;
    }

    /** The submission `handleFinalSubmit` files. */
    function Submission(date: string): MockSubmission
      reads this`form, this`electives, this`refNo, this`subjects
    {
      MockSubmission(refNo, date, form.enrollmentNo, form.name, form.programme, "Exam Form", None,
                     ExamPayload(form, Processed(subjects, electives), refNo), false)
    }

    /** `handleFinalSubmit`: the form, its processed courses and its
        reference number are filed in the store, and the view moves on.
        The date is the caller's current date. */
    method FinalSubmit(store: AuthStore.Store, date: string)
      requires view == Verify && Valid()
      modifies this`view, store`submissions
      ensures Valid()
      ensures store.submissions == [Submission(date)] + old(store.submissions)
      ensures view == Success
    {
      store.AddSubmission(Submission(date));
      view := Success;
    }
  }
}
