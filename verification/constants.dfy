/** The programme policy of constants.ts: the programme and session
    pools, the per-programme session, year and semester lists, the
    semester-or-annual rule, the exam calendar lists, the attendance
    months and the internship school tables. */
module Constants {
  import opened Wrappers
  import opened Strings

  function Programmes(): seq<string>
  {
    ["D.El.Ed.", "B.Ed.", "B.A.B.Ed.", "B.Sc.B.Ed.", "B.Com.B.Ed.", "M.Ed.", "Ph.D."]
  }

  function SessionsStandard(): seq<string>
  {
    ["2024-2026", "2025-2027", "2026-2028", "2027-2029", "2028-2030", "2030-2032"]
  }

  function SessionsIntegrated(): seq<string>
  {
    ["2030-2034", "2031-2035", "2032-2036"]
  }

  /** The full session pool: the standard sessions, then the integrated ones. */
  function Sessions(): seq<string>
  {
    SessionsStandard() + SessionsIntegrated()
  }

  /** The three integrated programmes share the long session, year and
      semester lists. */
  predicate IsIntegrated(programme: string)
  {
    programme in ["B.A.B.Ed.", "B.Sc.B.Ed.", "B.Com.B.Ed."]
  }

  function SessionsForProgramme(programme: string): (r: seq<string>)
    ensures |r| >= 1 && forall i :: 0 <= i < |r| ==> r[i] in Sessions()
  {
    if IsIntegrated(programme) then SessionsIntegrated() else SessionsStandard()
  }

  function AllYears(): seq<string>
  {
    ["First Year", "Second Year", "Third Year", "Fourth Year"]
  }

  function AllSemesters(): seq<string>
  {
    ["First Semester", "Second Semester", "Third Semester", "Fourth Semester",
     "Fifth Semester", "Six Semester", "Seventh Semester", "Eighth Semester"]
  }

  function YearsForProgramme(programme: string): (r: seq<string>)
    ensures |r| == (if IsIntegrated(programme) then 4 else 2)
    ensures r[0] == "First Year"
    ensures r <= AllYears()
  {
    if IsIntegrated(programme) then AllYears() else AllYears()[..2]
  }

  function SemestersForProgramme(programme: string): (r: seq<string>)
    ensures |r| == (if IsIntegrated(programme) then 8 else 4)
    ensures r[0] == "First Semester"
    ensures r <= AllSemesters()
  {
    if IsIntegrated(programme) then AllSemesters() else AllSemesters()[..4]
  }

  /** The semester-or-annual rule, checked top-down with early exit. */
  predicate IsSemesterSystem(programme: string, session: string)
  {
    if programme == "D.El.Ed." then false
    else if programme == "B.Ed." && session == "2024-2026" then false
    else if programme == "M.Ed." || Contains(programme, "B.Ed.") then true
    else false
  }

  function ExamMonths(): seq<string>
  {
    ["January", "February", "March", "April", "May", "June", "July",
     "August", "September", "October", "November", "December"]
  }

  /** `Array.from({length: 26}, (_, i) => (2025 + i).toString())`. */
  function ExamYears(): (r: seq<string>)
    ensures |r| == 26
  {
    seq(26, i requires 0 <= i < 26 => NatToString(2025 + i))
  }

  function ExamNatures(): seq<string>
  {
    ["Annual Examination", "Odd Semester Examination", "Even Semester Examination",
     "Backlog Examination", "Special Examination"]
  }

  /** A month of the academic year with its number of working days. */
  datatype MonthDays = MonthDays(name: string, days: nat)

  function Months(): seq<MonthDays>
  {
    [MonthDays("August", 24), MonthDays("September", 23), MonthDays("October", 19),
     MonthDays("November", 22), MonthDays("December", 24), MonthDays("January", 23),
     MonthDays("February", 22), MonthDays("March", 21), MonthDays("April", 24),
     MonthDays("May", 25), MonthDays("June", 20), MonthDays("July", 26)]
  }

  /** An internship school and the supervisors allotted to it. */
  datatype SchoolMapping = SchoolMapping(name: string, supervisors: seq<string>)

  function BedMedSchools(): seq<SchoolMapping>
  {
    [SchoolMapping("K.K. High School, Berauti", ["Dr. A. Sharma"]),
     SchoolMapping("Government High School, Biharsharif", ["Mr. C. Singh"]),
     SchoolMapping("S.S. Academy, Nalanda", ["Ms. E. Verma"]),
     SchoolMapping("Model High School, Rajgir", ["Mr. R. Yadav"]),
     SchoolMapping("St. Mary School, Nalanda", ["Dr. P. Jha"]),
     SchoolMapping("Dav Public School, Biharsharif", ["Mr. S. Kumar"])]
  }

  function DeledIntSchools(): seq<SchoolMapping>
  {
    [SchoolMapping("Primary School, Berauti", ["Mr. G. Ram"]),
     SchoolMapping("Middle School, Nepura", ["Dr. I. Prasad"]),
     SchoolMapping("K.K. Public School", ["Ms. L. Das"]),
     SchoolMapping("Zila School, Biharsharif", ["Mr. V. Tiwari"]),
     SchoolMapping("Basic School, Nalanda", ["Dr. K. Singh"])]
  }

  // ---------------------------------------------------------------------
  // Properties of the policy
  // ---------------------------------------------------------------------

  /** The integrated pool is returned exactly for the three integrated
      programmes; every other string, unknown ones included, gets the
      standard pool. */
  lemma SessionsForProgrammeChoice(programme: string)
    ensures SessionsForProgramme(programme) == SessionsIntegrated() <==> IsIntegrated(programme)
    ensures SessionsForProgramme(programme) == SessionsStandard() <==> !IsIntegrated(programme)
  {
    assert |SessionsIntegrated()| != |SessionsStandard()|;
  }

  /** The session pool holds nine distinct entries, standard ones first. */
  lemma SessionsDistinct()
    ensures |Sessions()| == 9
    ensures Sessions()[..6] == SessionsStandard() && Sessions()[6..] == SessionsIntegrated()
    ensures forall i, j :: 0 <= i < j < 9 ==> Sessions()[i] != Sessions()[j]
  {
    var s := Sessions();
    forall i, j | 0 <= i < j < 9 ensures s[i] != s[j] {
      assert s[i][3] != s[j][3] || s[i][8] != s[j][8];
    }
  }

  /** The semester rule, stated as one condition: not D.El.Ed., not the
      2024-2026 B.Ed. batch, and M.Ed. or a name containing "B.Ed.". */
  lemma SemesterSystemCondition(programme: string, session: string)
    ensures IsSemesterSystem(programme, session) <==>
      programme != "D.El.Ed." && !(programme == "B.Ed." && session == "2024-2026") &&
      (programme == "M.Ed." || exists i :: OccursAt(programme, "B.Ed.", i))
  {
    ContainsAt(programme, "B.Ed.");
  }

  /** The rule on the listed programmes: B.Ed. is annual only for the
      2024-2026 batch, the integrated programmes and M.Ed. are always
      semester-based, D.El.Ed. and Ph.D. never. */
  lemma SemesterSystemOnProgrammes(session: string)
    ensures IsSemesterSystem("B.Ed.", session) <==> session != "2024-2026"
    ensures IsSemesterSystem("B.A.B.Ed.", session)
    ensures IsSemesterSystem("B.Sc.B.Ed.", session)
    ensures IsSemesterSystem("B.Com.B.Ed.", session)
    ensures IsSemesterSystem("M.Ed.", session)
    ensures !IsSemesterSystem("D.El.Ed.", session)
    ensures !IsSemesterSystem("Ph.D.", session)
  {
    BEdNamesContainBEd();
    PhDLacksBEd();
  }

  lemma BEdNamesContainBEd()
    ensures Contains("B.Ed.", "B.Ed.") && Contains("B.A.B.Ed.", "B.Ed.")
    ensures Contains("B.Sc.B.Ed.", "B.Ed.") && Contains("B.Com.B.Ed.", "B.Ed.")
  {
    assert "B.Ed." <= "B.Ed.";
    BAContainsBEd();
    BScContainsBEd();
    BComContainsBEd();
  }

  lemma BAContainsBEd()
    ensures Contains("B.A.B.Ed.", "B.Ed.")
  {
    ContainsAt("B.A.B.Ed.", "B.Ed.");
    assert OccursAt("B.A.B.Ed.", "B.Ed.", 4);
  }

  lemma BScContainsBEd()
    ensures Contains("B.Sc.B.Ed.", "B.Ed.")
  {
    ContainsAt("B.Sc.B.Ed.", "B.Ed.");
    assert OccursAt("B.Sc.B.Ed.", "B.Ed.", 5);
  }

  lemma BComContainsBEd()
    ensures Contains("B.Com.B.Ed.", "B.Ed.")
  {
    ContainsAt("B.Com.B.Ed.", "B.Ed.");
    assert OccursAt("B.Com.B.Ed.", "B.Ed.", 6);
  }

  lemma PhDLacksBEd()
    ensures !Contains("Ph.D.", "B.Ed.")
  {
    ContainsAt("Ph.D.", "B.Ed.");
    assert forall i :: !OccursAt("Ph.D.", "B.Ed.", i) by {
      assert "Ph.D."[0..5] == "Ph.D.";
      assert "Ph.D."[0] != "B.Ed."[0];
    }
  }

  /** `EXAM_YEARS` is the 26 consecutive years from 2025 to 2050, as text. */
  lemma ExamYearsConsecutive()
    ensures forall i :: 0 <= i < 26 ==> ParseInt(ExamYears()[i]) == Some(2025 + i)
  {
    var ys := ExamYears();
    forall i | 0 <= i < 26 ensures ParseInt(ys[i]) == Some(2025 + i) {
      var n: nat := 2025 + i;
      assert ys[i] == NatToString(n);
      ParseIntOfNat(n);
    }
  }

  /** The first and last exam years. */
  lemma ExamYearsEnds()
    ensures ExamYears()[0] == "2025" && ExamYears()[25] == "2050"
  {
    assert NatToString(20) == "20" by { assert NatToString(2) == "2"; }
    assert NatToString(202) == "202";
    assert NatToString(205) == "205";
  }

  /** Every internship school is allotted at least one supervisor, and the
      names in each table are distinct. */
  lemma SchoolTablesWellFormed()
    ensures forall m :: m in BedMedSchools() ==> |m.supervisors| >= 1
    ensures forall m :: m in DeledIntSchools() ==> |m.supervisors| >= 1
    ensures forall i, j :: 0 <= i < j < |BedMedSchools()| ==> BedMedSchools()[i].name != BedMedSchools()[j].name
    ensures forall i, j :: 0 <= i < j < |DeledIntSchools()| ==> DeledIntSchools()[i].name != DeledIntSchools()[j].name
  {
    var b := BedMedSchools();
    forall i, j | 0 <= i < j < |b| ensures b[i].name != b[j].name {
      assert b[i].name[0] != b[j].name[0] || b[i].name[1] != b[j].name[1];
    }
    var d := DeledIntSchools();
    forall i, j | 0 <= i < j < |d| ensures d[i].name != d[j].name {
      assert d[i].name[0] != d[j].name[0];
    }
  }

  /** The attendance calendar runs August to July, twelve months. */
  lemma MonthsShape()
    ensures |Months()| == 12
    ensures Months()[0].name == "August" && Months()[11].name == "July"
    ensures forall i :: 0 <= i < 12 ==> Months()[i].days > 0
  {
  }
}
