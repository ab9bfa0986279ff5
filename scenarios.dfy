/** Worked evaluations of the Student View, including the boundaries of
    each rule (a rule fails strictly below its threshold). */
module Scenarios {
  import opened Wrappers
  import opened Aggregates
  import opened SubjectList
  import opened DecisionEngine

  /** Two subjects at 80 and 40, internal marks 15, 10 leaves out of 200
      days, no model: 95% attendance, 120 marks, 60%, and a PASS. */
  lemma PassingStudent()
    ensures AttendancePercentage(200, 10) == 95.0
    ensures Sum([80.0, 40.0]) == 120.0
    ensures Percentage(120.0, 2) == 60.0
    ensures Findings(["Math", "Sci"], [80.0, 40.0], AttendancePercentage(200, 10), 15.0, None) == []
    ensures Status(Reasons([])) == Pass
  {
    assert [80.0, 40.0][..1] == [80.0];
    assert [80.0][..0] == [];
    assert ["Math", "Sci"][..1] == ["Math"] && ["Math"][..0] == [];
    assert [80.0, 40.0][..1][..0] == [];
  }

  /** One subject at 20 and 60 leaves out of 200 days: two findings, the
      subject's first and the attendance second, and a FAIL. */
  lemma FailingStudent()
    ensures AttendancePercentage(200, 60) == 70.0
    ensures Findings(["Math"], [20.0], AttendancePercentage(200, 60), 15.0, None)
        == [SubjectBelowPass("Math"), AttendanceBelowPass]
    ensures Status(Reasons([SubjectBelowPass("Math"), AttendanceBelowPass])) == Fail
  {
  }

  /** The reasons the failing student is shown, word for word. */
  lemma FailingStudentReasons()
    ensures Reasons([SubjectBelowPass("Math"), AttendanceBelowPass])
        == ["Math mark below 35", "Attendance below 75%"]
  {
    var fs := [SubjectBelowPass("Math"), AttendanceBelowPass];
    assert Reason(fs[0]) == "Math" + " mark below 35" == "Math mark below 35";
  }

  /** With no subjects the percentage is 0 rather than a division by zero. */
  lemma NoSubjects()
    ensures Percentage(Sum([]), 0) == 0.0
  {
  }

  /** A mark of exactly 35, attendance of exactly 75% (50 leaves out of
      200) and internal marks of exactly 10 fail nothing. */
  lemma ThresholdsAreStrict()
    ensures AttendancePercentage(200, 50) == 75.0
    ensures Findings(["Math"], [35.0], AttendancePercentage(200, 50), 10.0, None) == []
  {
  }

  /** A "D" from the classifier fails a student who passes every rule; any
      other grade leaves the PASS. */
  lemma PredictionDecidesOtherwisePassingStudent()
    ensures Findings(["Math"], [90.0], 100.0, 20.0, Some("D")) == [LowPerformancePredicted]
    ensures Findings(["Math"], [90.0], 100.0, 20.0, Some("C")) == []
  {
  }

  /** An empty name at the first position becomes "Subject 1", at the
      twelfth "Subject 12"; a typed name is kept. */
  lemma DefaultNames()
    ensures SubjectName("", 0) == "Subject 1"
    ensures SubjectName("", 11) == "Subject 12"
    ensures SubjectName("Physics", 3) == "Physics"
  {
  }
}
