/** The Student View evaluation from the subject inputs to the verdict
    (streamlit_app.py:147-205), composed from its parts. */
module StudentView {
  import opened Wrappers
  import opened Aggregates
  import opened SubjectList
  import opened DecisionEngine

  /** Everything the Student View shows after "Predict Result". */
  datatype Verdict = Verdict(
    subjects: seq<string>,
    marks: seq<real>,
    totalMarks: real,
    percentage: real,
    attendance: real,
    grade: string,
    status: string,
    reasons: seq<string>,
    suggestions: seq<string>)

  /** One evaluation: the typed subject names and marks, internal marks,
      working days and leaves as read from the widgets, and the
      classifier's grade (`None` when the model could not be loaded). */
  method EvaluateStudent(numSubjects: nat, typedNames: seq<string>, typedMarks: seq<real>,
                         internalMarks: real, workingDays: int, leaves: int,
                         predicted: Option<string>)
    returns (v: Verdict)
    requires |typedNames| == numSubjects && |typedMarks| == numSubjects
    requires workingDays >= 1
    ensures |v.subjects| == numSubjects && v.marks == typedMarks
    ensures forall i :: 0 <= i < numSubjects ==> v.subjects[i] == SubjectName(typedNames[i], i)
    ensures v.totalMarks == Sum(typedMarks)
    ensures v.percentage == Percentage(Sum(typedMarks), numSubjects)
    ensures v.attendance == AttendancePercentage(workingDays, leaves)
    ensures var fs := Findings(v.subjects, typedMarks, v.attendance, internalMarks, predicted);
      v.reasons == Reasons(fs) && v.suggestions == Suggestions(fs)
    ensures v.grade == Grade(predicted)
    ensures v.status == Fail <==> v.reasons != []
    ensures v.status == Pass <==> v.reasons == []
  {
    var subjects, marks := BuildSubjectList(numSubjects, typedNames, typedMarks);
    var totalMarks := Sum(marks);
    var percentage := Percentage(totalMarks, numSubjects);
    var attendance := AttendancePercentage(workingDays, leaves);
    var reasons, suggestions, grade, status := Evaluate(subjects, marks, attendance, internalMarks, predicted);
    v := Verdict(subjects, marks, totalMarks, percentage, attendance, grade, status, reasons, suggestions);
  }
}
