/** The Status column of the Teacher Dashboard's uploaded table
    (streamlit_app.py:231-232). A table is a map from column name to the
    column's cells, in row order. */
module TeacherDashboard {
  import opened Wrappers
  import opened DecisionEngine

  type Table = map<string, seq<string>>

  const StatusColumn: string := "Status"
  const GradeColumn: string := "Grade"

  /** `"FAIL" if x == "D" else "PASS"` for one row's grade. */
  function RowStatus(grade: string): (s: string)
    ensures s == Fail <==> grade == WorstGrade
    ensures s == Pass <==> grade != WorstGrade
  {
    if grade == WorstGrade then Fail else Pass
  }

  /** The derived column: one status per grade, row by row. */
  function DeriveStatus(grades: seq<string>): (statuses: seq<string>)
    ensures |statuses| == |grades|
    ensures forall i :: 0 <= i < |grades| ==>
      (statuses[i] == Fail <==> grades[i] == WorstGrade) && (statuses[i] == Pass <==> grades[i] != WorstGrade)
  {
    if grades == [] then [] else DeriveStatus(grades[..|grades| - 1]) + [RowStatus(grades[|grades| - 1])]
  }

  /** A Status column is added only when it is missing and a Grade column
      exists; every existing column is kept as it was. */
  function AddMissingStatus(table: Table): (r: Table)
    ensures r.Keys == table.Keys + (if GradeColumn in table then {StatusColumn} else {})
    ensures forall c :: c in table ==> r[c] == table[c]
    ensures StatusColumn !in table && GradeColumn in table ==>
      |r[StatusColumn]| == |table[GradeColumn]| &&
      forall i :: 0 <= i < |table[GradeColumn]| ==>
        (r[StatusColumn][i] == Fail <==> table[GradeColumn][i] == WorstGrade) &&
        (r[StatusColumn][i] == Pass <==> table[GradeColumn][i] != WorstGrade)
  {
    if StatusColumn !in table && GradeColumn in table then
      table[StatusColumn := DeriveStatus(table[GradeColumn])]
    else
      table
  }

  /** The dashboard's rule agrees with the Student View: a row whose grade
      gives FAIL belongs to a student the Student View fails too, and for a
      student who passes every rule the two statuses are equal (a missing
      model gives "N/A", which the dashboard reads as PASS). */
  lemma DashboardAgreesWithStudentView(subjects: seq<string>, marks: seq<real>, attendance: real,
                                       internalMarks: real, predicted: Option<string>)
    requires |subjects| == |marks|
    ensures var status := Status(Reasons(Findings(subjects, marks, attendance, internalMarks, predicted)));
      && (RowStatus(Grade(predicted)) == Fail ==> status == Fail)
      && (RuleFindings(subjects, marks, attendance, internalMarks) == [] ==> RowStatus(Grade(predicted)) == status)
  {
  }
}
