/** The application shell: the category repositories (notice board,
    assignments, time-table, question bank, results) with their programme,
    session, year and semester selects, and the guard on the admin routes. */
module AppView {
  import opened Wrappers
  import opened Lists
  import opened Types
  import opened Constants
  import StudyMaterials

  /** The selects of a category repository; "" is "all". */
  datatype Selection = Selection(programme: string, session: string, year: string, semester: string)

  function InitialSelection(): Selection
  {
    Selection("", "", "", "")
  }

  /** The options of the session, year and semester selects: none until a
      programme is chosen. */
  function AvailableSessions(s: Selection): seq<string>
  {
    if s.programme == "" then [] else SessionsForProgramme(s.programme)
  }

  function AvailableYears(s: Selection): seq<string>
  {
    if s.programme == "" then [] else YearsForProgramme(s.programme)
  }

  function AvailableSemesters(s: Selection): seq<string>
  {
    if s.programme == "" then [] else SemestersForProgramme(s.programme)
  }

  /** Each list is empty exactly when no programme is chosen; otherwise it
      is the programme's own list. */
  lemma AvailableLaws(s: Selection)
    ensures AvailableSessions(s) == [] <==> s.programme == ""
    ensures AvailableYears(s) == [] <==> s.programme == ""
    ensures AvailableSemesters(s) == [] <==> s.programme == ""
    ensures s.programme != "" ==> |AvailableYears(s)| == (if IsIntegrated(s.programme) then 4 else 2)
    ensures s.programme != "" ==> |AvailableSemesters(s)| == (if IsIntegrated(s.programme) then 8 else 4)
  {
  }

  /** The semester select is shown, and applies, only for a semester
      programme and session. */
  predicate IsSemMode(s: Selection)
  {
    s.programme != "" && s.session != "" && IsSemesterSystem(s.programme, s.session)
  }

  lemma SemModeLaws(s: Selection)
    ensures s.programme == "" || s.session == "" ==> !IsSemMode(s)
    ensures s.programme != "" && s.session != "" ==> (IsSemMode(s) <==> IsSemesterSystem(s.programme, s.session))
    ensures s.programme == "B.Ed." ==> (IsSemMode(s) <==> s.session != "" && s.session != "2024-2026")
    ensures s.programme == "D.El.Ed." || s.programme == "Ph.D." ==> !IsSemMode(s)
  {
    SemesterSystemOnProgrammes(s.session);
  }

  /** `filteredContent`'s test: the category exactly, programme and year by
      the wildcard rule, and the semester only in semester mode. */
  predicate Shows(c: UploadedContent, category: string, s: Selection)
  {
    c.category == category &&
    StudyMaterials.Wild(c.programme, s.programme, "All Programmes") &&
    StudyMaterials.Wild(c.year, s.year, "All Years") &&
    (!IsSemMode(s) || StudyMaterials.Wild(c.semester, s.semester, "All Semesters"))
  }

  function Shown(uploaded: seq<UploadedContent>, category: string, s: Selection): seq<UploadedContent>
  {
    Filter(uploaded, (c: UploadedContent) => Shows(c, category, s))
  }

  /** The repository lists, in store order, exactly the items that pass the
      test; all of them are of the page's category. */
  lemma ShownLaws(uploaded: seq<UploadedContent>, category: string, s: Selection)
    ensures IsSubseq(Shown(uploaded, category, s), uploaded)
    ensures forall c :: c in Shown(uploaded, category, s) <==> c in uploaded && Shows(c, category, s)
    ensures forall i :: 0 <= i < |Shown(uploaded, category, s)| ==> Shown(uploaded, category, s)[i].category == category
  {
    FilterOrdered(uploaded, (c: UploadedContent) => Shows(c, category, s));
    FilterMembers(uploaded, (c: UploadedContent) => Shows(c, category, s));
    forall i | 0 <= i < |Shown(uploaded, category, s)| ensures Shown(uploaded, category, s)[i].category == category {
      assert Shown(uploaded, category, s)[i] in Shown(uploaded, category, s);
    }
  }

  /** Outside semester mode the semester select has no effect. */
  lemma SemesterIgnoredOutsideSemMode(c: UploadedContent, category: string, s: Selection, semester: string)
    requires !IsSemMode(s)
    ensures Shows(c, category, s) <==> Shows(c, category, s.(semester := semester))
  {
  }

  /** With nothing selected the repository lists every item of its
      category. */
  lemma NothingSelectedShowsCategory(c: UploadedContent, category: string)
    ensures Shows(c, category, InitialSelection()) <==> c.category == category
  {
  }

  /** A new programme clears session, year and semester. */
  function SelectProgramme(s: Selection, p: string): Selection
  {
    Selection(p, "", "", "")
  }

  /** A new session keeps the other choices. */
  function SelectSession(s: Selection, session: string): Selection
  {
    s.(session := session)
  }

  /** A new year clears the semester. */
  function SelectYear(s: Selection, y: string): Selection
  {
    s.(year := y, semester := "")
  }

  function SelectSemester(s: Selection, semester: string): Selection
  {
    s.(semester := semester)
  }

  /** Right after a programme change only category and programme narrow
      the list, and semester mode is off until a session is chosen; a year
      change leaves no semester narrowing; a session change keeps the
      other selects, and semester mode then follows the new session. */
  lemma ResetLaws(c: UploadedContent, category: string, s: Selection, p: string, y: string, session: string)
    ensures !IsSemMode(SelectProgramme(s, p))
    ensures Shows(c, category, SelectProgramme(s, p)) <==>
      c.category == category && StudyMaterials.Wild(c.programme, p, "All Programmes")
    ensures SelectYear(s, y).semester == "" && SelectYear(s, y).programme == s.programme && SelectYear(s, y).session == s.session
    ensures Shows(c, category, SelectYear(s, y)) <==>
      c.category == category && StudyMaterials.Wild(c.programme, s.programme, "All Programmes") &&
      StudyMaterials.Wild(c.year, y, "All Years")
    ensures SelectSession(s, session).programme == s.programme && SelectSession(s, session).year == s.year &&
      SelectSession(s, session).semester == s.semester && SelectSession(s, session).session == session
    ensures IsSemMode(SelectSession(s, session)) <==>
      s.programme != "" && session != "" && IsSemesterSystem(s.programme, session)
  {
  }

  /** Where an admin route goes. */
  datatype Route = Render | Redirect(path: string)

  const AdminLoginPath := "/admin-login"

  /** `ProtectedAdminRoute`: no user, or a user without the admin role, is
      sent to the admin login. */
  function GuardAdmin(user: Option<User>): (r: Route)
    ensures r == Render <==> user.Some? && user.value.role == Admin
    ensures r != Render ==> r == Redirect(AdminLoginPath)
  {
    match user
    case Some(u) => if u.role == Admin then Render else Redirect(AdminLoginPath)
    case None => Redirect(AdminLoginPath)
  }
}
