# Student pass/fail decision engine

A Dafny model of the evaluation behind the Student View of the school
academic-management dashboard (`streamlit_app.py`), and of the Status
column that the Teacher Dashboard derives from an uploaded table.

The Student View collects one name and one mark per subject. An empty
name becomes "Subject i+1". It also collects internal marks, working days
and leaves. From these it computes the total, the percentage of the
maximum and the attendance percentage. Then it runs three fixed rules:

- a subject mark below 35 fails;
- attendance below 75% fails;
- internal marks below 10 fail.

Each failed rule appends one reason and one paired suggestion. If the
classifier model is loaded, its grade is shown. A grade of "D" appends one
more reason and suggestion. The status is FAIL when there is at least one
reason, PASS otherwise. The Teacher Dashboard adds a Status column when the
uploaded table has a Grade column but no Status column: "FAIL" for grade
"D", "PASS" for anything else.

Files, one module each:

- `wrappers.dfy`: the `Option` type used for the classifier's answer.
- `aggregates.dfy`: total marks, percentage and attendance percentage, as exact reals.
- `subject_list.dfy`: the subject list loop and the default "Subject i+1" label, with its decimal rendering.
- `decision_engine.dfy`: the rules, the classifier fusion and the status. Specification functions over a `Finding` datatype sit beside the methods that build the reason and suggestion lists with loops, and lemmas state what the lists contain.
- `student_view.dfy`: one evaluation from widget inputs to verdict, composed from the above.
- `teacher_dashboard.dfy`: the Grade-to-Status derivation and how it relates to the Student View.
- `scenarios.dfy`: worked evaluations, including each rule's boundary.

Each reason and its suggestion are computed from one shared `Finding`, so
the two lists are index-aligned by construction. The methods are proved
against the `Findings` specification function, and the lemmas state what
`Findings` contains: order, counts, boundaries and the fail condition.

## Model

| member | source | states |
|---|---|---|
| `SubjectList.BuildSubjectList` | streamlit_app.py:147-154 | builds exactly `num_subjects` names and marks, marks as typed, each name non-empty and equal to the typed name or its default label |
| `SubjectList.SubjectName` | streamlit_app.py:153 | the name is never empty; a typed name is kept; an empty one becomes "Subject " followed by the digits of i+1 with no leading zero |
| `SubjectList.DecimalString` | streamlit_app.py:153 | the rendering of i+1 is a non-empty digit string that starts with '0' only for zero |
| `SubjectList.DecimalRoundTrip` | streamlit_app.py:153 | reading the rendered digits back gives the number |
| `SubjectList.DefaultNamesDistinct` | streamlit_app.py:153 | two different positions never get the same default label |
| `Aggregates.Sum` | streamlit_app.py:164 | the total of marks that are all at least 0 is at least 0 |
| `Aggregates.SumBounds` | streamlit_app.py:164 | with every mark in [lo, hi], the total lies in [n*lo, n*hi] |
| `Aggregates.Percentage` | streamlit_app.py:165-166 | 0 when there are no subjects (no division by zero); otherwise the percentage times `num_subjects * 100` gives the total times 100 |
| `Aggregates.PercentageInRange` | streamlit_app.py:164-166 | with all marks in [0, 100], the percentage lies in [0, 100] |
| `Aggregates.AttendancePercentage` | streamlit_app.py:169-172 | for at least one working day, the percentage times the days gives the days attended times 100 |
| `Aggregates.AttendanceBelowIff` | streamlit_app.py:172 | for a whole-number threshold, attendance is below it iff (days - leaves) * 100 < threshold * days, a test on integers alone |
| `Aggregates.AttendanceInRange` | streamlit_app.py:172 | with 0 <= leaves <= days, attendance lies in [0, 100] |
| `DecisionEngine.FailingPositions` | streamlit_app.py:180-181 | lists exactly the positions whose mark is below 35, each once, in increasing order; a mark of 35 is not listed |
| `DecisionEngine.SubjectFindings` | streamlit_app.py:180-183 | the subject loop only yields subject findings |
| `DecisionEngine.Reason` | streamlit_app.py:182-202 | every reason text is non-empty; a subject's reason starts with the subject's name |
| `DecisionEngine.Suggestion` | streamlit_app.py:183-203 | every suggestion text is non-empty; a subject's suggestion names the subject right after "Increase " |
| `DecisionEngine.AttendanceFindings` | streamlit_app.py:185-187 | one attendance finding iff attendance is below 75, none iff it is at least 75 |
| `DecisionEngine.InternalFindings` | streamlit_app.py:189-191 | one internal-marks finding iff internal marks are below 10, none iff they are at least 10 |
| `DecisionEngine.RuleFindings` | streamlit_app.py:180-191 | the subject findings come first, followed by at most two more |
| `DecisionEngine.Grade` | streamlit_app.py:193-199 | the shown grade is the prediction when there is one; it is "D" iff "D" was predicted, so the "N/A" shown without a model is never "D" |
| `DecisionEngine.PredictionFindings` | streamlit_app.py:195-203 | one classifier finding iff the prediction is "D"; none for any other grade or without a model |
| `DecisionEngine.Findings` | streamlit_app.py:180-203 | no finding at all iff the rule checks yield none and the prediction is not "D" |
| `DecisionEngine.Status` | streamlit_app.py:205 | "FAIL" iff there is a reason, "PASS" iff there is none |
| `DecisionEngine.SubjectFindingsFollowPositions` | streamlit_app.py:180-183 | the j-th subject reason names the subject at the j-th failing position, so one reason per failing subject in input order |
| `DecisionEngine.SubjectFindingsCount` | streamlit_app.py:180-183 | there are as many subject reasons as marks below 35 |
| `DecisionEngine.SubjectFindingsEmptyIff` | streamlit_app.py:180-183 | no subject reason iff every mark is at least 35 |
| `DecisionEngine.FindingsOrdered` | streamlit_app.py:180-203 | reasons come in check order: subjects, then attendance, then internal marks, then the classifier |
| `DecisionEngine.FindingsCount` | streamlit_app.py:180-203 | the number of reasons = (#marks < 35) + [attendance < 75] + [internal < 10] + [grade = "D"] |
| `DecisionEngine.SingleChecksOccurOnce` | streamlit_app.py:185-203 | the attendance, internal-marks and classifier reasons each occur once when their check fails (strictly below) and never otherwise |
| `DecisionEngine.FailIff` | streamlit_app.py:177-205 | FAIL iff some mark < 35, or attendance < 75, or internal < 10, or the predicted grade is "D": rule and classifier failures combine by "or" |
| `DecisionEngine.PredictionOnlyAppends` | streamlit_app.py:193-203 | without a model the grade is "N/A" and the reasons are the rules' alone; a prediction only appends, one reason exactly when it is "D", so a rule FAIL stays FAIL |
| `DecisionEngine.ReasonDeterminesFinding` | streamlit_app.py:182-203 | different findings never produce the same reason text |
| `DecisionEngine.ReasonsAndSuggestionsAligned` | streamlit_app.py:177-203 | the two lists have equal length and the suggestion at a position is determined by the reason at that position |
| `DecisionEngine.CheckSubjects` | streamlit_app.py:180-183 | the loop leaves the reasons and suggestions of the subject findings, paired index by index |
| `DecisionEngine.CheckRules` | streamlit_app.py:177-191 | after the three rule checks the lists are the reasons and suggestions of all rule findings, in order |
| `DecisionEngine.Evaluate` | streamlit_app.py:177-205 | the lists are the reasons and suggestions of all findings; the grade is the prediction or "N/A"; the status is FAIL iff the reasons are non-empty, PASS iff empty |
| `StudentView.EvaluateStudent` | streamlit_app.py:147-205 | one evaluation: subject list, total = sum of marks, percentage, attendance, reasons and suggestions of the findings, grade and status |
| `TeacherDashboard.RowStatus` | streamlit_app.py:232 | "FAIL" iff the grade is "D", "PASS" iff it is not |
| `TeacherDashboard.DeriveStatus` | streamlit_app.py:232 | one status per grade, of the same length; each is "FAIL" iff its grade is "D", else "PASS" |
| `TeacherDashboard.AddMissingStatus` | streamlit_app.py:231-232 | Status is added only when missing and Grade is present, derived row by row; every existing column is unchanged |
| `TeacherDashboard.DashboardAgreesWithStudentView` | streamlit_app.py:193-232 | a dashboard FAIL from the grade implies a Student View FAIL, and the two statuses agree when every rule passes |
| `Scenarios.PassingStudent` | streamlit_app.py:164-205 | marks 80 and 40, internal 15, 10 leaves of 200 days: 95% attendance, 120 marks, 60%, no reasons, PASS |
| `Scenarios.FailingStudent` | streamlit_app.py:172-205 | mark 20 and 60 leaves of 200 days: 70% attendance, the subject reason then the attendance reason, FAIL |
| `Scenarios.FailingStudentReasons` | streamlit_app.py:182-186 | the failing student's reasons word for word |
| `Scenarios.NoSubjects` | streamlit_app.py:164-166 | with no subjects the percentage is 0 |
| `Scenarios.ThresholdsAreStrict` | streamlit_app.py:181-189 | a mark of exactly 35, attendance of exactly 75% and internal marks of exactly 10 fail nothing |
| `Scenarios.PredictionDecidesOtherwisePassingStudent` | streamlit_app.py:193-205 | a "D" fails a student who passes every rule; another grade does not |
| `Scenarios.DefaultNames` | streamlit_app.py:153 | empty names at positions 0 and 11 become "Subject 1" and "Subject 12"; a typed name is kept |

## Left out

- Page setup, theme, header, session state, the login form and its hard-coded credentials, and role/page navigation (streamlit_app.py:11-127): UI and session plumbing.
- `generate_report_card` (streamlit_app.py:69-93): PDF layout and file output.
- The bar and pie charts and the dashboard metrics: total students, class average, pass % and fail count (streamlit_app.py:156-162, 234-263). These are library-backed float aggregation and rendering.
- Loading the model artifacts and the scaler, predict and label-decoder calls (streamlit_app.py:135-142, 196-199). These are foreign library calls. The classifier is an input `Option<string>`: `None` when loading failed, otherwise the decoded grade. The model does not capture that the grade is computed from total marks, internal marks and leaves.
- Formatting percentages to two decimals and the success/error/warning display (streamlit_app.py:173, 207-219): presentation.
- train_model.py (offline training) and app.py (console prediction): outside the evaluation engine.
- Floating point: marks, totals and percentages are exact reals, so Python's float rounding is not modelled. The threshold tests compare exact values.
- The input widgets' bounds: marks, internal marks and leaves are at least 0, and the number of subjects is at least 1. They are not required by the model. The model handles any values, and zero subjects takes the percentage guard. The one bound the model requires is at least one working day (streamlit_app.py:169), because the attendance division has no guard.
- More leaves than working days is accepted, as in the source. Attendance is then negative and fails the attendance rule.
- `zip(subjects, marks)` stops at the shorter list. Both lists come from the same loop and have equal length, so the rule methods require that.
- The uploaded table holds string cells only. Pandas' other cell types (numbers, missing values) are not modelled. A non-"D" grade gives PASS either way.
- The attendance reason is the fixed text "Attendance below 75%" (streamlit_app.py:186); it does not include the measured percentage.
