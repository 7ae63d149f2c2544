/** The student help desk: a sign-in step (the institution's own account
    or a registered staff account), then a lookup of a data-entry record
    by enrollment number and the attendance figures shown for it. */
module SearchPortal {
  import opened Wrappers
  import opened Lists
  import opened Types

  const MsgInvalidAdmin := "Invalid Admin Credentials"
  const MsgInvalidUser := "Invalid User/Staff Credentials"
  const MsgNoRecord := "No record found for this Enrollment ID"

  // ---------------------------------------------------------------------
  // Lookup
  // ---------------------------------------------------------------------

  predicate HasEnrollment(r: DataEntryRecord, enrollmentId: string)
  {
    r.basicInfo.enrollmentNo == enrollmentId
  }

  /** `handleLookup`'s search: the first record with exactly that
      enrollment number. */
  function Lookup(records: seq<DataEntryRecord>, enrollmentId: string): Option<DataEntryRecord>
  {
    match FindFirst(records, (r: DataEntryRecord) => HasEnrollment(r, enrollmentId))
    case None => None
    case Some(i) => Some(records[i])
  }

  /** A record is found exactly when one carries the number, and it is the
      first such record. */
  lemma LookupLaws(records: seq<DataEntryRecord>, enrollmentId: string)
    ensures Lookup(records, enrollmentId).None? <==>
      forall i :: 0 <= i < |records| ==> records[i].basicInfo.enrollmentNo != enrollmentId
    ensures Lookup(records, enrollmentId).Some? ==>
      exists i :: 0 <= i < |records| && Lookup(records, enrollmentId) == Some(records[i]) &&
        records[i].basicInfo.enrollmentNo == enrollmentId &&
        forall j :: 0 <= j < i ==> records[j].basicInfo.enrollmentNo != enrollmentId
  {
    var k := FindFirst(records, (r: DataEntryRecord) => HasEnrollment(r, enrollmentId));
    if k.Some? {
      assert HasEnrollment(records[k.value], enrollmentId);
      assert forall j :: 0 <= j < k.value ==> !HasEnrollment(records[j], enrollmentId);
    } else {
      assert forall i :: 0 <= i < |records| ==> !HasEnrollment(records[i], enrollmentId);
    }
  }

  /** The store keeps the newest record first, so a number entered twice
      finds the newer record. */
  lemma LookupPrefersNewest(records: seq<DataEntryRecord>, r: DataEntryRecord)
    ensures Lookup([r] + records, r.basicInfo.enrollmentNo) == Some(r)
  {
  }

  // ---------------------------------------------------------------------
  // Attendance figure
  // ---------------------------------------------------------------------

  function SumPercentages(rows: seq<AttendanceRecord>): int
  {
    if rows == [] then 0 else rows[0].percentage + SumPercentages(rows[1..])
  }

  /** `Math.round(sum / 12)`, i.e. the floor of `sum / 12 + 1/2`. */
  function RoundTwelfth(sum: int): int
  {
    (2 * sum + 12) / 24
  }

  /** The figure shown for one year: the rounded twelfth of the summed
      percentages, whatever the number of rows, and 0 without attendance. */
  function AttendanceFigure(att: Option<seq<AttendanceRecord>>): int
  {
    match att
    case None => 0
    case Some(rows) => RoundTwelfth(SumPercentages(rows))
  }

  /** The figure is the integer nearest to a twelfth of the sum, halves
      going up. */
  lemma RoundTwelfthRounds(sum: int)
    ensures 24 * RoundTwelfth(sum) <= 2 * sum + 12 < 24 * RoundTwelfth(sum) + 24
  {
  }

  lemma {:induction false} SumBounds(rows: seq<AttendanceRecord>)
    requires forall i :: 0 <= i < |rows| ==> 0 <= rows[i].percentage <= 100
    ensures 0 <= SumPercentages(rows) <= 100 * |rows|
  {
    if rows != [] {
      SumBounds(rows[1..]);
    }
  }

  /** Twelve months of percentages between 0 and 100 give a figure between
      0 and 100. */
  lemma FigureBounds(rows: seq<AttendanceRecord>)
    requires |rows| == 12
    requires forall i :: 0 <= i < |rows| ==> 0 <= rows[i].percentage <= 100
    ensures 0 <= AttendanceFigure(Some(rows)) <= 100
  {
    SumBounds(rows);
  }

  lemma {:induction false} SumConstant(rows: seq<AttendanceRecord>, p: int)
    requires forall i :: 0 <= i < |rows| ==> rows[i].percentage == p
    ensures SumPercentages(rows) == p * |rows|
  {
    if rows != [] {
      SumConstant(rows[1..], p);
    }
  }

  /** The divisor is 12 whatever the length: six full months read as 50. */
  lemma FigureDividesByTwelve(rows: seq<AttendanceRecord>)
    requires |rows| == 6 && forall i :: 0 <= i < |rows| ==> rows[i].percentage == 100
    ensures AttendanceFigure(Some(rows)) == 50
  {
    SumConstant(rows, 100);
  }

  // ---------------------------------------------------------------------
  // Sign-in
  // ---------------------------------------------------------------------

  datatype Step = Selection | Login | LookupStep
  datatype Mode = AdminMode | UserMode
  datatype Credentials = Credentials(id: string, password: string)

  predicate UserMatch(u: AdminUser, c: Credentials)
  {
    u.email == c.id && u.password == Some(c.password)
  }

  /** A registered account accepts the credentials when one entry carries
      both the e-mail and the password. */
  function UserAccepted(users: seq<AdminUser>, c: Credentials): (r: bool)
    ensures r <==> exists i :: 0 <= i < |users| && UserMatch(users[i], c)
  {
    var k := FindFirst(users, (u: AdminUser) => UserMatch(u, c));
    if k.Some? then
      assert UserMatch(users[k.value], c);
      true
    else
      false
  }

  /** Whether `handleLogin` signs in: the institution's account check for
      the admin mode, the registered accounts for the user mode. */
  function Accepted(mode: Mode, c: Credentials, users: seq<AdminUser>, institutionCheck: Credentials -> bool): bool
  {
    match mode
    case AdminMode => institutionCheck(c)
    case UserMode => UserAccepted(users, c)
  }

  /** An account without a password never signs in. */
  lemma PasswordlessRejected(u: AdminUser, c: Credentials)
    requires u.password.None?
    ensures !UserAccepted([u], c)
  {
  }

  class PortalState {
    var step: Step
    var mode: Mode
    var credentials: Credentials
    var enrollmentId: string
    var found: Option<DataEntryRecord>

    constructor()
      ensures step == Selection && mode == AdminMode && credentials == Credentials("", "")
      ensures enrollmentId == "" && found == None
    {
      step := Selection;
      mode := AdminMode;
      credentials := Credentials("", "");
      enrollmentId := "";
      found := None;
    }

    /** The two selection buttons. */
    method Choose(m: Mode)
      modifies this`mode, this`step
      ensures mode == m && step == Login
    {
      mode := m;
      step := Login;
    }

    method Cancel()
      modifies this`step
      ensures step == Selection
    {
      step := Selection;
    }

    method EditCredentials(c: Credentials)
      modifies this`credentials
      ensures credentials == c
    {
      credentials := c;
    }

    /** `handleLogin`: on success the lookup step, otherwise an alert
      naming the mode and the step unchanged. */
    method HandleLogin(users: seq<AdminUser>, institutionCheck: Credentials -> bool) returns (alert: Option<string>)
      modifies this`step
      ensures Accepted(mode, credentials, users, institutionCheck) ==> step == LookupStep && alert == None
      ensures !Accepted(mode, credentials, users, institutionCheck) ==>
        step == old(step) && alert == Some(if mode == AdminMode then MsgInvalidAdmin else MsgInvalidUser)
    {
      if Accepted(mode, credentials, users, institutionCheck) {
        step := LookupStep;
        alert := None;
      } else {
        alert := Some(if mode == AdminMode then MsgInvalidAdmin else MsgInvalidUser);
      }
    }

    method EditEnrollmentId(id: string)
      modifies this`enrollmentId
      ensures enrollmentId == id
    {
      enrollmentId := id;
    }

    /** `handleLookup`: the found record is shown; without one an alert,
        and the shown record is left as it was. */
    method HandleLookup(records: seq<DataEntryRecord>) returns (alert: Option<string>)
      modifies this`found
      ensures Lookup(records, enrollmentId).Some? ==> found == Lookup(records, enrollmentId) && alert == None
      ensures Lookup(records, enrollmentId).None? ==> found == old(found) && alert == Some(MsgNoRecord)
    {
      var r := Lookup(records, enrollmentId);
      if r.Some? {
        found := r;
        alert := None;
      } else {
        alert := Some(MsgNoRecord);
      }
    }

    /** "New Search". */
    method NewSearch()
      modifies this`found
      ensures found == None
    {
      found := None;
    }

    /** "Invalidate Session & Exit": back to the selection, credentials
        cleared. */
    method Invalidate()
      modifies this`step, this`credentials
      ensures step == Selection && credentials == Credentials("", "")
    {
      step := Selection;
      credentials := Credentials("", "");
    }
  }
}
