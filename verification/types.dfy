/** The record shapes of the portal. An optional string field that the
    code only tests for truthiness is a plain `string`, with `""` standing
    for both the empty string and `undefined`; optional fields of other
    types are `Option`s. */
module Types {
  import opened Wrappers

  datatype Role = Student | Admin | Staff

  datatype AdminRole = SuperAdmin | ContentManager | DbAdmin

  datatype PersonDomain = StudentDomain | Scholar | Faculty | NonTeachingStaff

  datatype User = User(role: Role, email: string, studentId: string, adminRole: Option<AdminRole>)

  datatype EducationalDetail = EducationalDetail(
    programme: string, year: string, subject: string, board: string, result: string)

  /** One student form. The optional `eduDetails` list is empty when absent. */
  datatype StudentFormData = StudentFormData(
    name: string, enrollmentNo: string, fatherName: string, motherName: string,
    programme: string, session: string, year: string, semester: string,
    email: string, address: string, pinCode: string, photoUrl: string,
    studentSignatureUrl: string, mobile: string, whatsapp: string,
    formDate: string, examNature: string, examMonth: string, examYear: string,
    leaveTo: string, leaveSubject: string, leaveReason: string,
    internshipSchool: string, internshipObserver: string,
    internshipStartDate: string, internshipEndDate: string,
    eduDetails: seq<EducationalDetail>)

  /** A form with every field empty. */
  function EmptyForm(): (f: StudentFormData)
    ensures f.name == "" && f.programme == "" && f.eduDetails == []
  {
    StudentFormData("", "", "", "", "", "", "", "", "", "", "", "", "", "", "",
                    "", "", "", "", "", "", "", "", "", "", "", [])
  }

  datatype BasicInfo = BasicInfo(
    enrollmentNo: string, name: string, fatherName: string, motherName: string,
    programme: string, session: string, year: string, photoUrl: string,
    contact1: string, whatsapp: string, email: string, address: string)

  /** One month of attendance; the counts are plain integers because the
      input field can hold any number. */
  datatype AttendanceRecord = AttendanceRecord(
    month: string, workingDays: int, presentDays: int, percentage: int)

  datatype Submitted = Submitted | NotSubmitted

  datatype PracticalFileStatus = PracticalFileStatus(name: string, submitted: Submitted)

  datatype Status =
    | Participated | NotParticipated | Attended | NotAttended | Present | Absent
    | Filled | NotFilled | Pass | Failed | Yes | No

  datatype ParticipationStatus = ParticipationStatus(name: string, status: Status)

  datatype AcademicAchievements = AcademicAchievements(
    researchPapers: string, workshops: string, booksWritten: string, educationalApps: string)

  datatype AdminWork = AdminWork(
    academicContribution: string, mentor: string, coCurricular: string, examination: string)

  datatype Evaluation = Evaluation(
    practicalFiles: string, ctScripts: string, yearlyScripts: string,
    assignments: string, studentRegisters: string, facultyRegisters: string)

  /** The registry record the administrator's data-entry form saves. The
      attendance lists are optional because a stored record may lack them. */
  datatype DataEntryRecord = DataEntryRecord(
    id: string, domain: PersonDomain, basicInfo: BasicInfo,
    attendance1: Option<seq<AttendanceRecord>>, attendance2: Option<seq<AttendanceRecord>>,
    practical1: seq<PracticalFileStatus>, practical2: seq<PracticalFileStatus>,
    communityOutreach1: seq<ParticipationStatus>, examinations1: seq<ParticipationStatus>,
    sports: seq<ParticipationStatus>, qualifications: seq<ParticipationStatus>,
    academicAchievements: AcademicAchievements, adminWork: AdminWork,
    evaluation: Evaluation, technicalAchievements: string,
    otherResponsibilities: seq<ParticipationStatus>)

  datatype FormTimeline = FormTimeline(
    formId: string, formName: string, startDate: string, endDate: string, isActive: bool)

  datatype UploadedContent = UploadedContent(
    id: string, category: string, programme: string, year: string, semester: string,
    title: string, description: string, datePublished: string,
    fileName: string, fileSize: string, fileData: string)

  /** One row of the curriculum table. `options` is empty on rows that
      carry none; `maxSelection` is absent on most rows. */
  datatype Subject = Subject(
    kind: string, code: string, name: string, credit: nat, ie: nat, ee: nat, mm: nat,
    isElective: bool, options: seq<string>, isMultiSelect: bool, maxSelection: Option<nat>)

  /** A subject row with the title chosen for it on the exam form. */
  datatype ProcessedSubject = ProcessedSubject(subject: Subject, selectedTitle: Option<string>)

  /** The `data` payload a submission carries. */
  datatype Payload =
    | NoPayload
    | FormPayload(form: StudentFormData)
    | ExamPayload(form: StudentFormData, subjects: seq<ProcessedSubject>, refNo: string)

  /** A form submission; an absent `isRead` is `false`. */
  datatype MockSubmission = MockSubmission(
    id: string, date: string, enrollmentNo: string, name: string, programme: string,
    formType: string, school: Option<string>, data: Payload, isRead: bool)

  datatype AdminUser = AdminUser(id: string, email: string, password: Option<string>, role: AdminRole)

  datatype GoverningBodyMember = GoverningBodyMember(
    id: string, name: string, title: string, image: string, description: string)

  datatype GalleryImage = GalleryImage(id: string, url: string, title: string, description: string)

  datatype OfficialSignatures = OfficialSignatures(
    deanSign: Option<string>, progCoordSign: Option<string>, internshipCoordSign: Option<string>)
}
