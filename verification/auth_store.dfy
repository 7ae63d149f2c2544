/** The in-memory store shared by every page: the lists of records,
    uploads, timelines, leadership entries, gallery images and
    submissions, the official signatures, the signed-in user and the
    reference-number counter, with the operations that replace them. */
module AuthStore {
  import opened Wrappers
  import opened Strings
  import opened Lists
  import opened Types

  /** The form type under which internship requests are submitted. */
  const InternshipFormType := "Internship Letter"

  /** A section open over the default period. */
  function Open(formId: string, formName: string): FormTimeline
  {
    FormTimeline(formId, formName, "01-01-2024", "31-12-2030", true)
  }

  /** The thirteen portal sections, all open over 2024-2030. */
  function InitialTimelines(): seq<FormTimeline>
  {
    [Open("notice-board", "Notice Board"),
     Open("assignments", "Assignments"),
     Open("timetable", "Time-Table"),
     Open("question-bank", "Question Bank"),
     Open("study-materials", "Study Materials"),
     Open("result", "Exam Results"),
     Open("data-entry", "Data Entry Form"),
     Open("exam", "Fill Examination Form"),
     Open("grievance", "Fill Grievance"),
     Open("internship", "Internship Letter"),
     Open("leave", "Leave Application"),
     Open("feedback", "Feedback"),
     Open("governing-body", "Leadership Section")]
  }

  // ---------------------------------------------------------------------
  // Form timelines
  // ---------------------------------------------------------------------

  /** `isFormOpen`: the first timeline with this id decides. */
  function TimelineOpen(ts: seq<FormTimeline>, formId: string): bool
  {
    match FindFirst(ts, (t: FormTimeline) => t.formId == formId)
    case None => false
    case Some(i) => ts[i].isActive
  }

  /** A section is open exactly when some timeline carries its id and the
      first such timeline is active. */
  lemma TimelineOpenIff(ts: seq<FormTimeline>, formId: string)
    ensures TimelineOpen(ts, formId) <==>
      exists i :: 0 <= i < |ts| && ts[i].formId == formId && ts[i].isActive &&
        forall j :: 0 <= j < i ==> ts[j].formId != formId
  {
    var r := FindFirst(ts, (t: FormTimeline) => t.formId == formId);
    if r.Some? {
      var i := r.value;
      assert ts[i].formId == formId;
      if exists k :: 0 <= k < |ts| && ts[k].formId == formId && ts[k].isActive &&
           forall j :: 0 <= j < k ==> ts[j].formId != formId {
        var k :| 0 <= k < |ts| && ts[k].formId == formId && ts[k].isActive &&
          forall j :: 0 <= j < k ==> ts[j].formId != formId;
        assert !(k < i) && !(i < k);
      }
    } else {
      assert forall i :: 0 <= i < |ts| ==> ts[i].formId != formId;
    }
  }

  /** `updateFormTimeline`: every entry with the same id is replaced. */
  function ReplaceTimeline(ts: seq<FormTimeline>, t: FormTimeline): (r: seq<FormTimeline>)
    ensures |r| == |ts|
    ensures forall i :: 0 <= i < |ts| && ts[i].formId == t.formId ==> r[i] == t
    ensures forall i :: 0 <= i < |ts| && ts[i].formId != t.formId ==> r[i] == ts[i]
  {
    seq(|ts|, i requires 0 <= i < |ts| => if ts[i].formId == t.formId then t else ts[i])
  }

  /** After a replacement the section of `t` is open exactly when it was
      listed and `t` is active; every other section keeps its state. */
  lemma ReplaceTimelineOpen(ts: seq<FormTimeline>, t: FormTimeline, formId: string)
    ensures formId == t.formId ==>
      (TimelineOpen(ReplaceTimeline(ts, t), formId) <==>
        t.isActive && exists i :: 0 <= i < |ts| && ts[i].formId == formId)
    ensures formId != t.formId ==>
      TimelineOpen(ReplaceTimeline(ts, t), formId) == TimelineOpen(ts, formId)
  {
    var r := ReplaceTimeline(ts, t);
    var p := (x: FormTimeline) => x.formId == formId;
    assert forall i :: 0 <= i < |ts| ==> (p(r[i]) <==> p(ts[i]));
    FindSame(ts, r, p);
    if formId == t.formId {
      var f := FindFirst(ts, p);
      if f.None? {
        assert forall i :: 0 <= i < |ts| ==> ts[i].formId != formId;
      }
    }
  }

  /** Two lists whose elements agree on `p` index by index have the same
      first match. */
  lemma {:induction false} FindSame<T>(xs: seq<T>, ys: seq<T>, p: T -> bool)
    requires |xs| == |ys| && forall i :: 0 <= i < |xs| ==> (p(xs[i]) <==> p(ys[i]))
    ensures FindFirst(xs, p) == FindFirst(ys, p)
  {
    if xs != [] {
      FindSame(xs[1..], ys[1..], p);
    }
  }

  /** `updateAllFormTimelines`: only the active flag changes. */
  function SetAllActive(ts: seq<FormTimeline>, active: bool): (r: seq<FormTimeline>)
    ensures |r| == |ts|
    ensures forall i :: 0 <= i < |ts| ==> r[i] == ts[i].(isActive := active)
  {
    seq(|ts|, i requires 0 <= i < |ts| => ts[i].(isActive := active))
  }

  /** After setting every flag, a section is open exactly when it is
      listed and the flag is set. */
  lemma SetAllActiveOpen(ts: seq<FormTimeline>, active: bool, formId: string)
    ensures TimelineOpen(SetAllActive(ts, active), formId) <==>
      active && exists i :: 0 <= i < |ts| && ts[i].formId == formId
  {
    var r := SetAllActive(ts, active);
    var p := (x: FormTimeline) => x.formId == formId;
    FindSame(ts, r, p);
    var f := FindFirst(ts, p);
    if f.None? {
      assert forall i :: 0 <= i < |ts| ==> ts[i].formId != formId;
    }
  }

  // ---------------------------------------------------------------------
  // Lists keyed by id
  // ---------------------------------------------------------------------

  /** The `delete*` operations: drop every element carrying the id. */
  function RemoveId<T>(xs: seq<T>, key: T -> string, id: string): seq<T>
  {
    Filter(xs, (x: T) => key(x) != id)
  }

  /** Removal drops exactly the elements with the id, keeps the order of
      the rest, and changes nothing when no element carries the id. */
  lemma RemoveIdEffect<T>(xs: seq<T>, key: T -> string, id: string)
    ensures forall x :: x in RemoveId(xs, key, id) <==> x in xs && key(x) != id
    ensures IsSubseq(RemoveId(xs, key, id), xs)
    ensures (forall i :: 0 <= i < |xs| ==> key(xs[i]) != id) ==> RemoveId(xs, key, id) == xs
  {
    FilterMembers(xs, (x: T) => key(x) != id);
    FilterOrdered(xs, (x: T) => key(x) != id);
    if forall i :: 0 <= i < |xs| ==> key(xs[i]) != id {
      FilterKeepsAll(xs, (x: T) => key(x) != id);
    }
  }

  /** `updateGoverningMember`: every entry with the same id is replaced. */
  function ReplaceMember(ms: seq<GoverningBodyMember>, m: GoverningBodyMember): (r: seq<GoverningBodyMember>)
    ensures |r| == |ms|
    ensures forall i :: 0 <= i < |ms| && ms[i].id == m.id ==> r[i] == m
    ensures forall i :: 0 <= i < |ms| && ms[i].id != m.id ==> r[i] == ms[i]
  {
    seq(|ms|, i requires 0 <= i < |ms| => if ms[i].id == m.id then m else ms[i])
  }

  /** Replacing twice with the same entry is replacing once. */
  lemma ReplaceMemberIdempotent(ms: seq<GoverningBodyMember>, m: GoverningBodyMember)
    ensures ReplaceMember(ReplaceMember(ms, m), m) == ReplaceMember(ms, m)
  {
  }

  /** `markSubmissionAsRead`: only the flag of the entries with the id. */
  function MarkRead(subs: seq<MockSubmission>, id: string): (r: seq<MockSubmission>)
    ensures |r| == |subs|
  {
    seq(|subs|, i requires 0 <= i < |subs| => if subs[i].id == id then subs[i].(isRead := true) else subs[i])
  }

  /** Marking changes nothing but the flag, sets it on the entries with
      the id, leaves the others alone, and is idempotent. */
  lemma MarkReadEffect(subs: seq<MockSubmission>, id: string)
    ensures forall i :: 0 <= i < |subs| ==> MarkRead(subs, id)[i].(isRead := subs[i].isRead) == subs[i]
    ensures forall i :: 0 <= i < |subs| ==> MarkRead(subs, id)[i].isRead == (subs[i].isRead || subs[i].id == id)
    ensures MarkRead(MarkRead(subs, id), id) == MarkRead(subs, id)
  {
  }

  // ---------------------------------------------------------------------
  // Signatures, reference numbers, enrolment counts
  // ---------------------------------------------------------------------

  /** `{ ...prev, ...signs }`: a supplied key overwrites, an absent key
      keeps the old value. */
  function MergeSignatures(prev: OfficialSignatures, signs: OfficialSignatures): (r: OfficialSignatures)
    ensures signs.deanSign.Some? ==> r.deanSign == signs.deanSign
    ensures signs.deanSign.None? ==> r.deanSign == prev.deanSign
  {
    OfficialSignatures(
      if signs.deanSign.Some? then signs.deanSign else prev.deanSign,
      if signs.progCoordSign.Some? then signs.progCoordSign else prev.progCoordSign,
      if signs.internshipCoordSign.Some? then signs.internshipCoordSign else prev.internshipCoordSign)
  }

  /** The merge is right-biased on every key: applying the same update
      twice is applying it once, an empty update changes nothing, and two
      updates in a row are one update with the second winning. */
  lemma MergeLaws(p: OfficialSignatures, a: OfficialSignatures, b: OfficialSignatures)
    ensures MergeSignatures(MergeSignatures(p, a), a) == MergeSignatures(p, a)
    ensures MergeSignatures(p, OfficialSignatures(None, None, None)) == p
    ensures MergeSignatures(MergeSignatures(p, a), b) == MergeSignatures(p, MergeSignatures(a, b))
    ensures MergeSignatures(p, a).progCoordSign == (if a.progCoordSign.Some? then a.progCoordSign else p.progCoordSign)
    ensures MergeSignatures(p, a).internshipCoordSign == (if a.internshipCoordSign.Some? then a.internshipCoordSign else p.internshipCoordSign)
  {
  }

  /** `generateRefNo`: `KKU/SOETR/<year>/<counter padded to 3 digits>`. */
  function RefNo(year: nat, counter: nat): string
  {
    "KKU/SOETR/" + NatToString(year) + "/" + PadStart(NatToString(counter), 3, '0')
  }

  /** The counter part is at least three digits, its value is the counter
      (so nothing is truncated), and distinct counters give distinct
      reference numbers. */
  lemma RefNoCounter(year: nat, counter: nat)
    ensures var d := PadStart(NatToString(counter), 3, '0');
      RefNo(year, counter) == "KKU/SOETR/" + NatToString(year) + "/" + d &&
      |d| >= 3 && |d| >= |NatToString(counter)| && AllDigits(d) && ParseInt(d) == Some(counter)
  {
    var d := PadStart(NatToString(counter), 3, '0');
    PadStartValue(NatToString(counter), 3);
    NatToStringValue(counter);
    ParseIntOfDigits(d);
  }

  /** Distinct counters of one year give distinct reference numbers. */
  lemma RefNoInjective(year: nat, a: nat, b: nat)
    requires RefNo(year, a) == RefNo(year, b)
    ensures a == b
  {
    RefNoCounter(year, a);
    RefNoCounter(year, b);
    var p := "KKU/SOETR/" + NatToString(year) + "/";
    var da, db := PadStart(NatToString(a), 3, '0'), PadStart(NatToString(b), 3, '0');
    assert RefNo(year, a) == p + da && RefNo(year, b) == p + db;
    assert da == (p + da)[|p|..];
    assert db == (p + db)[|p|..];
  }

  /** The first reference number of 2025. */
  lemma FirstRefNo()
    ensures RefNo(2025, 1) == "KKU/SOETR/2025/001"
  {
    assert NatToString(2025) == "2025" by {
      assert NatToString(2) == "2";
      assert NatToString(20) == "20";
      assert NatToString(202) == "202";
    }
    assert NatToString(1) == "1";
    assert Repeat('0', 2) == "00";
  }

  /** The submission is an internship request for this school. */
  predicate ForSchool(s: MockSubmission, school: string)
  {
    s.formType == InternshipFormType && s.school == Some(school)
  }

  /** `getSchoolEnrollmentCount`. */
  function SchoolCount(subs: seq<MockSubmission>, school: string): (r: nat)
    ensures r <= |subs|
  {
    Count(subs, (s: MockSubmission) => ForSchool(s, school))
  }

  /** Adding a submission raises a school's count by one exactly when it
      is an internship request for that school. */
  lemma SchoolCountAdd(s: MockSubmission, subs: seq<MockSubmission>, school: string)
    ensures SchoolCount([s] + subs, school) == SchoolCount(subs, school) + (if ForSchool(s, school) then 1 else 0)
  {
    CountPrepend(s, subs, (x: MockSubmission) => ForSchool(x, school));
  }

  // ---------------------------------------------------------------------
  // The store
  // ---------------------------------------------------------------------

  class Store {
    var user: User
    var dataRecords: seq<DataEntryRecord>
    var adminUsers: seq<AdminUser>
    var uploadedContent: seq<UploadedContent>
    var formTimelines: seq<FormTimeline>
    var officialSignatures: OfficialSignatures
    var governingBody: seq<GoverningBodyMember>
    var galleryImages: seq<GalleryImage>
    var submissions: seq<MockSubmission>
    var refCounter: nat
    /** The gallery shown while the stored list is empty. */
    const defaultGallery: seq<GalleryImage>

    /** The provider's initial state: a student session, no records, one
        administrator account, the default timelines, the default
        leadership entry and gallery, and the counter at 1. The
        administrator's credentials and the default entries' texts and
        image addresses are parameters here. */
    constructor(admin: AdminUser, governing: seq<GoverningBodyMember>, gallery: seq<GalleryImage>)
      ensures user == User(Student, "", "", None)
      ensures dataRecords == [] && uploadedContent == [] && submissions == []
      ensures adminUsers == [admin]
      ensures formTimelines == InitialTimelines()
      ensures officialSignatures == OfficialSignatures(None, None, None)
      ensures governingBody == governing
      ensures galleryImages == gallery && defaultGallery == gallery
      ensures refCounter == 1
    {
      user := User(Student, "", "", None);
      dataRecords := [];
      adminUsers := [admin];
      uploadedContent := [];
      formTimelines := InitialTimelines();
      officialSignatures := OfficialSignatures(None, None, None);
      governingBody := governing;
      galleryImages := gallery;
      defaultGallery := gallery;
      submissions := [];
      refCounter := 1;
    }

    /** `login`: the administrator role defaults to the super administrator. */
    method Login(role: Role, email: string, adminRole: Option<AdminRole>)
      modifies this`user
      ensures user == User(role, email, "", Some(adminRole.GetOr(SuperAdmin)))
    {
      user := User(role, email, "", Some(adminRole.GetOr(SuperAdmin)));
    }

    /** `logout`: back to an anonymous student session. */
    method Logout()
      modifies this`user
      ensures user == User(Student, "", "", None)
    {
      user := User(Student, "", "", None);
    }

    function IsFormOpen(formId: string): bool
      reads this
    {
      TimelineOpen(formTimelines, formId)
    }

    method UpdateFormTimeline(t: FormTimeline)
      modifies this`formTimelines
      ensures formTimelines == ReplaceTimeline(old(formTimelines), t)
    {
      formTimelines := ReplaceTimeline(formTimelines, t);
    }

    method UpdateAllFormTimelines(active: bool)
      modifies this`formTimelines
      ensures formTimelines == SetAllActive(old(formTimelines), active)
    {
      formTimelines := SetAllActive(formTimelines, active);
    }

    method AddDataRecord(r: DataEntryRecord)
      modifies this`dataRecords
      ensures dataRecords == [r] + old(dataRecords)
    {
      dataRecords := [r] + dataRecords;
    }

    method DeleteDataRecord(id: string)
      modifies this`dataRecords
      ensures dataRecords == RemoveId(old(dataRecords), (r: DataEntryRecord) => r.id, id)
    {
      dataRecords := RemoveId(dataRecords, (r: DataEntryRecord) => r.id, id);
    }

    method PublishContent(c: UploadedContent)
      modifies this`uploadedContent
      ensures uploadedContent == [c] + old(uploadedContent)
    {
      uploadedContent := [c] + uploadedContent;
    }

    method DeleteContent(id: string)
      modifies this`uploadedContent
      ensures uploadedContent == RemoveId(old(uploadedContent), (c: UploadedContent) => c.id, id)
    {
      uploadedContent := RemoveId(uploadedContent, (c: UploadedContent) => c.id, id);
    }

    method UpdateOfficialSignatures(signs: OfficialSignatures)
      modifies this`officialSignatures
      ensures officialSignatures == MergeSignatures(old(officialSignatures), signs)
    {
      officialSignatures := MergeSignatures(officialSignatures, signs);
    }

    method AddGalleryImage(img: GalleryImage)
      modifies this`galleryImages
      ensures galleryImages == old(galleryImages) + [img]
    {
      galleryImages := galleryImages + [img];
    }

    method DeleteGalleryImage(id: string)
      modifies this`galleryImages
      ensures galleryImages == RemoveId(old(galleryImages), (g: GalleryImage) => g.id, id)
    {
      galleryImages := RemoveId(galleryImages, (g: GalleryImage) => g.id, id);
    }

    /** The gallery the pages see: the default one while the list is empty. */
    function Gallery(): (r: seq<GalleryImage>)
      reads this
      ensures |galleryImages| > 0 ==> r == galleryImages
      ensures |galleryImages| == 0 ==> r == defaultGallery
    {
      if |galleryImages| > 0 then galleryImages else defaultGallery
    }

    method AddGoverningMember(m: GoverningBodyMember)
      modifies this`governingBody
      ensures governingBody == [m] + old(governingBody)
    {
      governingBody := [m] + governingBody;
    }

    method UpdateGoverningMember(m: GoverningBodyMember)
      modifies this`governingBody
      ensures governingBody == ReplaceMember(old(governingBody), m)
    {
      governingBody := ReplaceMember(governingBody, m);
    }

    method DeleteGoverningMember(id: string)
      modifies this`governingBody
      ensures governingBody == RemoveId(old(governingBody), (m: GoverningBodyMember) => m.id, id)
    {
      governingBody := RemoveId(governingBody, (m: GoverningBodyMember) => m.id, id);
    }

    method AddSubmission(s: MockSubmission)
      modifies this`submissions
      ensures submissions == [s] + old(submissions)
      ensures forall school ::
                SchoolEnrollmentCount(school) ==
                old(SchoolEnrollmentCount(school)) + (if ForSchool(s, school) then 1 else 0)
    {
      SchoolCountAddAll(s, submissions);
      submissions := [s] + submissions;
    }

    method DeleteSubmission(id: string)
      modifies this`submissions
      ensures submissions == RemoveId(old(submissions), (s: MockSubmission) => s.id, id)
    {
      submissions := RemoveId(submissions, (s: MockSubmission) => s.id, id);
    }

    method MarkSubmissionAsRead(id: string)
      modifies this`submissions
      ensures submissions == MarkRead(old(submissions), id)
    {
      submissions := MarkRead(submissions, id);
    }

    /** `generateRefNo(year)`: the number for the current counter, which
        then moves on by one. The year is the caller's current year. */
    method GenerateRefNo(year: nat) returns (r: string)
      modifies this`refCounter
      ensures r == RefNo(year, old(refCounter))
      ensures refCounter == old(refCounter) + 1
    {
      r := RefNo(year, refCounter);
      refCounter := refCounter + 1;
    }

    function SchoolEnrollmentCount(school: string): nat
      reads this`submissions
    {
      SchoolCount(submissions, school)
    }
  }

  lemma SchoolCountAddAll(s: MockSubmission, subs: seq<MockSubmission>)
    ensures forall school :: SchoolCount([s] + subs, school) ==
                              SchoolCount(subs, school) + (if ForSchool(s, school) then 1 else 0)
  {
    forall school {
      SchoolCountAdd(s, subs, school);
    }
  }
}
