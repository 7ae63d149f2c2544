/** The curriculum table of constants.ts: programme, then session key
    (a batch such as "2024-2026", or "All" for programmes whose courses do
    not depend on the batch), then year or semester label, then the subject
    rows in display order. The table is kept as two parts: the nested
    index of keys, whose leaves name a course list, and the function that
    gives the course list of each leaf. */
module Curriculum {
  import opened Wrappers
  import opened Types

  /** The twelve course lists of the table. */
  datatype Leaf =
    | BEd2024Year1 | BEd2024Year2
    | BEd2025Sem1 | BEd2025Sem2 | BEd2025Sem3 | BEd2025Sem4
    | MEdSem1 | MEdSem2 | MEdSem3 | MEdSem4
    | DElEdYear1 | DElEdYear2

  /** The nested index of the table. */
  function Catalog(): map<string, map<string, map<string, Leaf>>>
  {
    map[
      "B.Ed." := map[
        "2024-2026" := map["First Year" := BEd2024Year1, "Second Year" := BEd2024Year2],
        "2025-2027" := map[
          "First Semester" := BEd2025Sem1, "Second Semester" := BEd2025Sem2,
          "Third Semester" := BEd2025Sem3, "Fourth Semester" := BEd2025Sem4]],
      "M.Ed." := map[
        "All" := map[
          "First Semester" := MEdSem1, "Second Semester" := MEdSem2,
          "Third Semester" := MEdSem3, "Fourth Semester" := MEdSem4]],
      "D.El.Ed." := map[
        "All" := map["First Year" := DElEdYear1, "Second Year" := DElEdYear2]]
    ]
  }

  /** The course list of a leaf. */
  function Rows(leaf: Leaf): seq<Subject>
  {
    match leaf
    case BEd2024Year1 =>
    [
      Subject("C.C.", "ERBD1101", "Childhood and Growing Up", 4, 30, 70, 100, false, [], false, None),
      Subject("C.C.", "ERBD1102", "Contemporary India & Education", 4, 30, 70, 100, false, [], false, None),
      Subject("C.C.", "ERBD1103", "Learning and Teaching", 4, 30, 70, 100, false, [], false, None),
      Subject("C.C.", "ERBD1104", "Language across the Curriculum", 2, 15, 35, 50, false, [], false, None),
      Subject("C.C.", "ERBD1105", "Understanding Discipline & Subject", 2, 15, 35, 50, false, [], false, None),
      Subject("C.C.", "ERPC1124", "School Internship Programme - I (4 week)", 2, 50, 0, 50, false, [], false, None),
      Subject("O.E.C.", "ERBD1105/25", "Select Any One (OEC)", 2, 15, 35, 50, true, ["Gender, School and Society", "Value and Peace Education"], false, None),
      Subject("D.S.E.C", "DSEC-B24", "Pedagogy of School Subject Part-I", 2, 15, 35, 50, true, ["Pedagogy of Hindi", "Pedagogy of English", "Pedagogy of Urdu", "Pedagogy of Sanskrit", "Pedagogy of Mathematics", "Pedagogy of Physical Science", "Pedagogy of Biological Science", "Pedagogy of History", "Pedagogy of Civics", "Pedagogy of Geography", "Pedagogy of Economics", "Pedagogy of Social Science", "Pedagogy of Computer Science", "Pedagogy of Home Science", "Pedagogy of Commerce"], false, None),
      Subject("A.E.C.C", "ERBD1126", "Environmental Science", 4, 30, 70, 100, false, [], false, None),
      Subject("A.E.C.C", "ERBD1127", "Hindi Communication", 4, 30, 70, 100, false, [], false, None),
      Subject("S.E.C.", "ERPC1122", "Reading and Reflecting on Texts", 2, 50, 0, 50, false, [], false, None),
      Subject("S.E.C.", "ERPC1123", "Drama and Art in Education", 2, 50, 0, 50, false, [], false, None)
    ]
    case BEd2024Year2 =>
    [
      Subject("C.C.", "ERBD1201", "Knowledge and Curriculum", 4, 30, 70, 100, false, [], false, None),
      Subject("C.C.", "ERBD1202", "Assessment for Learning", 4, 30, 70, 100, false, [], false, None),
      Subject("C.C.", "ERBD1203", "Creating an Inclusive School", 2, 15, 35, 50, false, [], false, None),
      Subject("C.C.", "ERPC1224", "School Internship Programme-II (16 week)", 8, 100, 100, 200, false, [], false, None),
      Subject("O.E.C.", "OEC-Y2", "Select Any One (OEC)", 2, 15, 35, 50, true, ["Health, Yoga and Physical Education", "Guidance and Counselling", "Understanding School Management and leadership", "Teacher Education"], false, None)
    ]
    case BEd2025Sem1 =>
    [
      Subject("C.C.", "ERBD1101", "Childhood and Growing Up", 4, 30, 70, 100, false, [], false, None),
      Subject("C.C.", "ERBD1102", "Contemporary India & Education", 4, 30, 70, 100, false, [], false, None),
      Subject("C.C.", "ERBD1105", "Understanding Discipline & Subject", 2, 15, 35, 50, false, [], false, None),
      Subject("C.C.", "ERBD1106", "Gender, School and Society", 2, 15, 35, 50, false, [], false, None),
      Subject("O.E.C.", "OEC-S1", "Open Elective (Select One)", 2, 15, 35, 50, true, ["Value and Peace Education", "Educational Techonology", "Human Right Education"], false, None),
      Subject("A.E.C.C.", "ERBD1126", "Environmental Science", 4, 30, 70, 100, false, [], false, None),
      Subject("S.E.C.", "ERPC1122", "Reading and Reflecting on Texts", 2, 50, 0, 50, false, [], false, None),
      Subject("S.E.C.", "ERPC1123", "Drama & Art in Education", 2, 50, 0, 50, false, [], false, None)
    ]
    case BEd2025Sem2 =>
    [
      Subject("C.C.", "ERBD1103", "Learning and Teaching", 4, 30, 70, 100, false, [], false, None),
      Subject("C.C.", "ERBD1104", "Language across the Curriculum", 2, 15, 35, 50, false, [], false, None),
      Subject("C.C.", "ERPC1124", "School Internship Programme-I (4 week)", 4, 100, 0, 100, false, [], false, None),
      Subject("O.E.C.", "OEC-S2", "Open Elective (Select One)", 2, 15, 35, 50, true, ["Population Education", "Leadership and Policy Studies", "Education for Sustainable development"], false, None),
      Subject("D.S.E.C", "DSEC-S2", "Pedagogy Part-I (Select Any Two)", 4, 30, 70, 100, true, ["Pedagogy of Hindi", "Pedagogy of English", "Pedagogy of Urdu", "Pedagogy of Sanskrit", "Pedagogy of Mathematics", "Pedagogy of Physical Science", "Pedagogy of Biological Science", "Pedagogy of History", "Pedagogy of Civics", "Pedagogy of Geography", "Pedagogy of Economics", "Pedagogy of Social Science", "Pedagogy of Computer Science", "Pedagogy of Home Science", "Pedagogy of Commerce"], true, Some(2)),
      Subject("A.E.C.C", "ERBD1127", "Hindi Communication", 4, 30, 70, 100, false, [], false, None)
    ]
    case BEd2025Sem3 =>
    [
      Subject("C.C.", "ERBD1201", "Knowledge and Curriculum", 4, 30, 70, 100, false, [], false, None),
      Subject("C.C.", "ERBD1202", "Assessment for Learning", 4, 30, 70, 100, false, [], false, None),
      Subject("O.E.C.", "OEC-S3", "Open Elective (Select One)", 2, 15, 35, 50, true, ["Guidance and Counselling", "Teacher Education", "Cultural Competency in Education"], false, None),
      Subject("A.E.C.C.", "ERBD1226", "Emotional Intelligence", 4, 30, 70, 100, false, [], false, None),
      Subject("S.E.C.", "ERPC1222", "Creatical Understanding of ICT", 2, 50, 0, 50, false, [], false, None),
      Subject("S.E.C.", "ERPC1223", "Understanding the Self", 2, 50, 0, 50, false, [], false, None)
    ]
    case BEd2025Sem4 =>
    [
      Subject("C.C.", "ERBD1203", "Creating an Inclusive School", 2, 15, 35, 50, false, [], false, None),
      Subject("C.C.", "ERPC1224", "School Internship Programme-II (16 week)", 12, 200, 100, 300, false, [], false, None),
      Subject("O.E.C.", "OEC-S4", "Open Elective (Select One)", 2, 15, 35, 50, true, ["Health, Yoga and Physical Education", "Understanding School Management and leadership", "Langauge Culture and Education"], false, None),
      Subject("D.S.E.C", "DSEC-S4", "Pedagogy Part-II (Select Any Two)", 4, 30, 70, 100, true, ["Pedagogy of Hindi", "Pedagogy of English", "Pedagogy of Urdu", "Pedagogy of Sanskrit", "Pedagogy of Mathematics", "Pedagogy of Physical Science", "Pedagogy of Biological Science", "Pedagogy of History", "Pedagogy of Civics", "Pedagogy of Geography", "Pedagogy of Economics", "Pedagogy of Social Science", "Pedagogy of Computer Science", "Pedagogy of Home Science", "Pedagogy of Commerce"], true, Some(2)),
      Subject("A.E.C.C", "ERBD1227", "English Communication", 3, 30, 70, 100, false, [], false, None)
    ]
    case MEdSem1 =>
    [
      Subject("C.C. 1", "ERMD:1301", "Psychology of learning & development", 4, 30, 70, 100, false, [], false, None),
      Subject("C.C. 2", "ERMD:1302", "Historical / political economy perspectives", 4, 30, 70, 100, false, [], false, None),
      Subject("C.C. 3", "ERMD:1303", "Relevance of teachers Education", 4, 30, 70, 100, false, [], false, None),
      Subject("C.C. 4", "ERMD:1304", "Fundamentals of Educational research", 4, 30, 70, 100, false, [], false, None),
      Subject("EPC-1", "EPC:1305", "Communication and expository writing", 2, 50, 0, 50, false, [], false, None)
    ]
    case MEdSem2 =>
    [
      Subject("C.C. 5", "ERMD:1306", "Sociological & philosophical perspectives", 4, 30, 70, 100, false, [], false, None),
      Subject("C.C. 6", "ERMD:1307", "Teacher Education \U{2013} issues and challenges", 4, 30, 70, 100, false, [], false, None),
      Subject("C.C. 7", "ERMD:1308", "Curriculum studies", 4, 30, 70, 100, false, [], false, None),
      Subject("C.C. 8", "ERMD:1309", "Innovative teaching-learning", 4, 30, 70, 100, false, [], false, None),
      Subject("C.C. 9", "ERMD:1310", "Dissertation (1/2)", 2, 15, 35, 50, false, [], false, None),
      Subject("EPC-2", "EPC:1311", "Internship in a teacher Education institution", 4, 50, 50, 100, false, [], false, None)
    ]
    case MEdSem3 =>
    [
      Subject("O.E.C.", "OEC-M3-1", "Open Elective (Select One)", 4, 30, 70, 100, true, ["Elementary Education for differently abled", "Secondary Education for differently abled"], false, None),
      Subject("O.E.C.", "OEC-M3-2", "Open Elective (Select One)", 4, 30, 70, 100, true, ["Curriculum pedagogy and assessment (Elementary)", "Curriculum pedagogy and assessment (Secondary)"], false, None),
      Subject("C.C. 10", "ERMD:1405", "Advanced research methodology", 4, 30, 70, 100, false, [], false, None),
      Subject("C.C. 11", "ERMD:1406", "Creativity & value Education", 4, 30, 70, 100, false, [], false, None),
      Subject("EPC-3", "EPC:1407", "Internship", 4, 50, 0, 50, false, [], false, None),
      Subject("C.C. 12", "ERMD:1408", "Dissertation (1/2) & Env Education", 4, 30, 70, 100, false, [], false, None)
    ]
    case MEdSem4 =>
    [
      Subject("O.E.C.", "OEC-M4-1", "Open Elective (Select One)", 4, 30, 70, 100, true, ["Policy, economics and planning (Elementary)", "Policy, economics and planning (Secondary)"], false, None),
      Subject("O.E.C.", "OEC-M4-2", "Open Elective (Select One)", 4, 30, 70, 100, true, ["Educational management and administration (Elementary)", "Educational management and administration (Secondary)"], false, None),
      Subject("C.C. 13", "ERMD:1413", "Educational technology & ICT", 4, 30, 70, 100, false, [], false, None),
      Subject("C.C. 14", "ERMD:1414", "Dissertation Final", 4, 100, 0, 100, false, [], false, None),
      Subject("EPC-4", "EPC:1415", "Seminar/Workshop (16 weeks)", 4, 100, 0, 100, false, [], false, None)
    ]
    case DElEdYear1 =>
    [
      Subject("I", "06020101", "Understanding Society, Education and Curriculum", 4, 30, 70, 100, false, [], false, None),
      Subject("II", "06020102", "Childhood and Development of Children", 4, 30, 70, 100, false, [], false, None),
      Subject("III", "06020103", "Early Childhood Care and Education", 4, 30, 70, 100, false, [], false, None),
      Subject("IV", "06020104", "School culture, change and Teacher Development", 4, 30, 70, 100, false, [], false, None),
      Subject("V", "06020105", "Understanding Language and Early Language Dev", 2, 15, 35, 50, false, [], false, None),
      Subject("VI", "06020106", "Gender and Inclusive Perspectives", 2, 15, 35, 50, false, [], false, None),
      Subject("VII", "06020107", "Pedagogy of Mathematics-I (Primary)", 2, 15, 35, 50, false, [], false, None),
      Subject("VIII", "06020108", "Pedagogy of Hindi-I (Primary)", 2, 15, 35, 50, false, [], false, None),
      Subject("IX", "06020109", "Proficiency in English", 2, 15, 35, 50, false, [], false, None),
      Subject("X", "06020110", "Pedagogy of Environmental Studies", 2, 15, 35, 50, false, [], false, None),
      Subject("XI", "06020111", "Art Integrated Education", 4, 30, 70, 100, false, [], false, None),
      Subject("XII", "06020112", "Information and Communication Technology", 4, 30, 70, 100, false, [], false, None),
      Subject("XIII", "SEP-I", "School Experience Programme\U{2013} I (4 week)", 4, 100, 0, 100, false, [], false, None)
    ]
    case DElEdYear2 =>
    [
      Subject("I", "06020201", "Education in Contemporary Indian Society", 4, 30, 70, 100, false, [], false, None),
      Subject("II", "06020202", "Cognition, Learning and Development", 4, 30, 70, 100, false, [], false, None),
      Subject("III", "06020203", "Task and Education", 2, 50, 0, 50, false, [], false, None),
      Subject("IV", "06020204", "Understanding the Self", 2, 15, 35, 50, false, [], false, None),
      Subject("V", "06020205", "Health, Yoga and Physical Education", 4, 30, 70, 100, false, [], false, None),
      Subject("VI", "06020206", "Pedagogy of English (Primary)", 2, 15, 35, 50, false, [], false, None),
      Subject("VII", "06020207", "Pedagogy of Mathematics-II (Primary)", 2, 15, 35, 50, false, [], false, None),
      Subject("VIII", "06020208", "Pedagogy of Hindi-II (Primary)", 2, 15, 35, 50, false, [], false, None),
      Subject("IX", "06020209", "Upper Primary level any one", 2, 15, 35, 50, true, ["Mathematics", "Science", "Social Science", "English", "Hindi", "Sanskrit", "Urdu"], false, None),
      Subject("X", "SEP-2", "School Experience Programme-II (16 Week)", 16, 300, 100, 400, false, [], false, None)
    ]
  }

  /** The shape every row of the table has: the full marks are the internal
      plus the external marks; an elective offers at least one option and a
      core course none; only the two "Select Any Two" pedagogy rows are
      multi-select, each with a cap of 2 and at least 2 options; no other
      row carries a cap. */
  predicate RowOk(s: Subject)
  {
    && s.mm == s.ie + s.ee
    && (s.isElective ==> |s.options| > 0)
    && (!s.isElective ==> s.options == [])
    && (s.isMultiSelect ==>
          s.isElective && (s.code == "DSEC-S2" || s.code == "DSEC-S4") &&
          s.maxSelection == Some(2) && 2 <= |s.options|)
    && (!s.isMultiSelect ==> s.maxSelection == None)
  }

  // Each leaf's rows have the shape of RowOk.

  lemma BEd2024FirstYearOk()
    ensures forall i :: 0 <= i < |Rows(BEd2024Year1)| ==> RowOk(Rows(BEd2024Year1)[i])
  {
  }

  lemma BEd2024SecondYearOk()
    ensures forall i :: 0 <= i < |Rows(BEd2024Year2)| ==> RowOk(Rows(BEd2024Year2)[i])
  {
  }

  lemma BEd2025FirstSemesterOk()
    ensures forall i :: 0 <= i < |Rows(BEd2025Sem1)| ==> RowOk(Rows(BEd2025Sem1)[i])
  {
  }

  lemma BEd2025SecondSemesterOk()
    ensures forall i :: 0 <= i < |Rows(BEd2025Sem2)| ==> RowOk(Rows(BEd2025Sem2)[i])
  {
  }

  lemma BEd2025ThirdSemesterOk()
    ensures forall i :: 0 <= i < |Rows(BEd2025Sem3)| ==> RowOk(Rows(BEd2025Sem3)[i])
  {
  }

  lemma BEd2025FourthSemesterOk()
    ensures forall i :: 0 <= i < |Rows(BEd2025Sem4)| ==> RowOk(Rows(BEd2025Sem4)[i])
  {
  }

  lemma MEdFirstSemesterOk()
    ensures forall i :: 0 <= i < |Rows(MEdSem1)| ==> RowOk(Rows(MEdSem1)[i])
  {
  }

  lemma MEdSecondSemesterOk()
    ensures forall i :: 0 <= i < |Rows(MEdSem2)| ==> RowOk(Rows(MEdSem2)[i])
  {
  }

  lemma MEdThirdSemesterOk()
    ensures forall i :: 0 <= i < |Rows(MEdSem3)| ==> RowOk(Rows(MEdSem3)[i])
  {
  }

  lemma MEdFourthSemesterOk()
    ensures forall i :: 0 <= i < |Rows(MEdSem4)| ==> RowOk(Rows(MEdSem4)[i])
  {
  }

  lemma DElEdFirstYearOk()
    ensures forall i :: 0 <= i < |Rows(DElEdYear1)| ==> RowOk(Rows(DElEdYear1)[i])
  {
  }

  lemma DElEdSecondYearOk()
    ensures forall i :: 0 <= i < |Rows(DElEdYear2)| ==> RowOk(Rows(DElEdYear2)[i])
  {
  }
}
