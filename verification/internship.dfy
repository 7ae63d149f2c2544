/** The internship (school internship programme) allotment request: the
    school list of the programme, the supervisor lookup, the mandatory
    and capacity checks, the slot arithmetic, and the entry/verify/success
    views. */
module Internship {
  import opened Wrappers
  import opened Lists
  import opened Types
  import opened Constants
  import AuthStore

  const MaxCapacity := 20
  const PendingAllotment := "Pending Allotment"
  const MandateAlert := "Institutional Mandate: All identity particulars and school selections are required."
  const CapacityAlert := "Capacity Alert: This school reached regulatory limits. Select another institution."

  /** B.Ed. and M.Ed. students are placed in secondary schools, every
      other programme in the primary-level list. */
  function SchoolList(programme: string): seq<SchoolMapping>
  {
    if programme == "B.Ed." || programme == "M.Ed." then BedMedSchools() else DeledIntSchools()
  }

  lemma SchoolListChoice(programme: string)
    ensures SchoolList(programme) == BedMedSchools() <==> programme == "B.Ed." || programme == "M.Ed."
    ensures SchoolList(programme) == DeledIntSchools() <==> programme != "B.Ed." && programme != "M.Ed."
  {
    assert |BedMedSchools()| != |DeledIntSchools()|;
  }

  /** `handleSchoolChange`'s observer: the first supervisor of the first
      mapping with that name, or the pending marker. */
  function Supervisor(list: seq<SchoolMapping>, school: string): string
  {
    match FindFirst(list, (m: SchoolMapping) => m.name == school)
    case None => PendingAllotment
    case Some(i) => if |list[i].supervisors| > 0 then list[i].supervisors[0] else PendingAllotment
  }

  /** A school the list does not name gets the pending marker; a named
      school gets its first supervisor, or the marker when it has none. */
  lemma SupervisorLaws(list: seq<SchoolMapping>, school: string)
    ensures (forall i :: 0 <= i < |list| ==> list[i].name != school) ==> Supervisor(list, school) == PendingAllotment
    ensures forall i :: 0 <= i < |list| && list[i].name == school && FirstNamed(list, i) ==>
      Supervisor(list, school) == (if |list[i].supervisors| > 0 then list[i].supervisors[0] else PendingAllotment)
  {
    var r := FindFirst(list, (m: SchoolMapping) => m.name == school);
    if r.Some? {
      assert FirstNamed(list, r.value);
    }
  }

  /** No mapping before index `i` carries its name. */
  predicate FirstNamed(list: seq<SchoolMapping>, i: nat)
    requires i < |list|
  {
    forall j :: 0 <= j < i ==> list[j].name != list[i].name
  }

  /** On the programme tables every school is allotted its first listed
      supervisor, never the pending marker. */
  lemma TableSupervisor(programme: string, i: nat)
    requires i < |SchoolList(programme)|
    ensures Supervisor(SchoolList(programme), SchoolList(programme)[i].name) == SchoolList(programme)[i].supervisors[0]
  {
    var list := SchoolList(programme);
    SchoolTablesWellFormed();
    assert list[i] in list;
    SupervisorLaws(list, list[i].name);
  }

  /** The particulars verification requires: name, enrollment number,
      school, photograph and start date. The end date is not checked. */
  predicate MandatoryFilled(f: StudentFormData)
  {
    f.name != "" && f.enrollmentNo != "" && f.internshipSchool != "" &&
    f.photoUrl != "" && f.internshipStartDate != ""
  }

  /** A school is full from 20 requests on. */
  predicate Full(count: nat)
  {
    count >= MaxCapacity
  }

  /** The slots shown beside a school. */
  function Slots(count: nat): int
  {
    MaxCapacity - count
  }

  /** An option is disabled exactly when no slot is left, and the slots
      of a school that is not full are between 1 and 20. */
  lemma SlotsLaws(count: nat)
    ensures Full(count) <==> Slots(count) <= 0
    ensures !Full(count) ==> 1 <= Slots(count) <= MaxCapacity
    ensures Slots(count + 1) == Slots(count) - 1
  {
  }

  /** The outcome of `handleInitialVerify`: the alert it raises, if any. */
  function VerifyAlert(f: StudentFormData, count: nat): Option<string>
  {
    if !MandatoryFilled(f) then Some(MandateAlert)
    else if Full(count) then Some(CapacityAlert)
    else None
  }

  /** Verification proceeds exactly when the particulars are filled and
      the school is below capacity; missing particulars are reported
      before capacity. */
  lemma VerifyAlertIff(f: StudentFormData, count: nat)
    ensures VerifyAlert(f, count).None? <==> MandatoryFilled(f) && count < MaxCapacity
    ensures !MandatoryFilled(f) ==> VerifyAlert(f, count) == Some(MandateAlert)
    ensures MandatoryFilled(f) && Full(count) ==> VerifyAlert(f, count) == Some(CapacityAlert)
  {
  }

  datatype View = Entry | Verify | Success

  /** The initial request form: B.Ed. 2024-2026, first year and semester,
      everything else empty. */
  function InitialForm(): StudentFormData
  {
    EmptyForm().(programme := "B.Ed.", session := "2024-2026", year := "First Year", semester := "First Semester")
  }

  class LetterState {
    var form: StudentFormData
    var schools: seq<SchoolMapping>
    var view: View
    var refNo: string

    /** The form as first shown, after the programme effect: the B.Ed.
        school list and no school chosen. */
    constructor()
      ensures form == InitialForm() && schools == BedMedSchools()
      ensures view == Entry && refNo == ""
    {
      form := InitialForm();
      schools := SchoolList("B.Ed.");
      view := Entry;
      refNo := "";
    }

    /** The mount effect: one reference number drawn from the store. */
    method Mount(store: AuthStore.Store, year: nat)
      modifies this`refNo, store`refCounter
      ensures refNo == AuthStore.RefNo(year, old(store.refCounter))
      ensures store.refCounter == old(store.refCounter) + 1
    {
      refNo := store.GenerateRefNo(year);
    }

    /** A new programme: its school list, and the school and observer
        cleared. The same programme again changes nothing. */
    method SetProgramme(p: string)
      modifies this`form, this`schools
      ensures p == old(form.programme) ==> form == old(form) && schools == old(schools)
      ensures p != old(form.programme) ==>
        form == old(form).(programme := p, internshipSchool := "", internshipObserver := "") &&
        schools == SchoolList(p)
    {
      if p != form.programme {
        form := form.(programme := p, internshipSchool := "", internshipObserver := "");
        schools := SchoolList(p);
      }
    }

    /** `handleSchoolChange`. */
    method SchoolChange(school: string)
      modifies this`form
      ensures form == old(form).(internshipSchool := school, internshipObserver := Supervisor(schools, school))
    {
      form := form.(internshipSchool := school, internshipObserver := Supervisor(schools, school));
    }

    /** Any other field edit (name, enrollment number, photograph, dates). */
    method EditDetails(f: StudentFormData)
      requires f.programme == form.programme
      requires f.internshipSchool == form.internshipSchool && f.internshipObserver == form.internshipObserver
      modifies this`form
      ensures form == f
    {
      form := f;
    }

    /** `handleInitialVerify`: the alert raised, and the verify view only
        when there is none. */
    method InitialVerify(store: AuthStore.Store) returns (alert: Option<string>)
      requires view == Entry
      modifies this`view
      ensures alert == VerifyAlert(form, store.SchoolEnrollmentCount(form.internshipSchool))
      ensures view == (if alert.None? then Verify else Entry)
    {
      alert := VerifyAlert(form, store.SchoolEnrollmentCount(form.internshipSchool));
      view := if alert.None? then Verify else Entry;
    }

    method Modify()
      requires view == Verify
      modifies this`view
      ensures view == Entry
    {
      view := Entry;
    }

    /** The request `handleFinalSubmit` files. */
    function Request(date: string): MockSubmission
      reads this`form, this`refNo
    {
      MockSubmission(refNo, date, form.enrollmentNo, form.name, form.programme, AuthStore.InternshipFormType,
                     Some(form.internshipSchool), FormPayload(form), false)
    }

    /** `handleFinalSubmit`: the request is filed, which takes one slot of
        the chosen school and no other. */
    method FinalSubmit(store: AuthStore.Store, date: string)
      requires view == Verify
      modifies this`view, store`submissions
      ensures store.submissions == [Request(date)] + old(store.submissions)
      ensures store.SchoolEnrollmentCount(form.internshipSchool) ==
        old(store.SchoolEnrollmentCount(form.internshipSchool)) + 1
      ensures forall school :: school != form.internshipSchool ==>
        store.SchoolEnrollmentCount(school) == old(store.SchoolEnrollmentCount(school))
      ensures view == Success
    {
      store.AddSubmission(Request(date));
      view := Success;
    }
  }
}
