/** The pass/fail decision of the Student View (streamlit_app.py:177-205):
    fixed rules over marks, attendance and internal marks, then the
    classifier's grade, fused into reasons, suggestions and a status. */
module DecisionEngine {
  import opened Wrappers

  /** A subject mark below this fails the subject. */
  const SubjectPassMark: real := 35.0
  /** An attendance percentage below this fails the student. */
  const AttendancePassPercentage: real := 75.0
  /** Internal marks below this fail the student. */
  const InternalPassMark: real := 10.0
  /** The predicted grade that adds the classifier's reason. */
  const WorstGrade: string := "D"
  /** The grade shown when no model is loaded. */
  const NoGrade: string := "N/A"

  /** The two final statuses. */
  const Fail: string := "FAIL"
  const Pass: string := "PASS"

  /** One failed check. Its reason and its suggestion are both derived from
      it, which is what keeps the two lists index-aligned. */
  datatype Finding =
    | SubjectBelowPass(subject: string)
    | AttendanceBelowPass
    | InternalMarksLow
    | LowPerformancePredicted

  /** The line added to `fail_reasons` for a finding; a subject's reason
      starts with the subject's name. */
  function Reason(f: Finding): (r: string)
    ensures |r| > 0
    ensures f.SubjectBelowPass? ==> |r| > |f.subject| && r[..|f.subject|] == f.subject
  {
    match f
    case SubjectBelowPass(subject) => subject + " mark below 35"
    case AttendanceBelowPass => "Attendance below 75%"
    case InternalMarksLow => "Internal marks too low"
    case LowPerformancePredicted => "Low academic performance predicted by AI"
  }

  /** The line added to `suggestions` for a finding; a subject's
      suggestion names the subject after "Increase ". */
  function Suggestion(f: Finding): (s: string)
    ensures |s| > 0
    ensures f.SubjectBelowPass? ==> |s| > 9 + |f.subject| && s[9..9 + |f.subject|] == f.subject
  {
    match f
    case SubjectBelowPass(subject) => "Increase " + subject + " mark above 35"
    case AttendanceBelowPass => "Improve attendance above 75%"
    case InternalMarksLow => "Improve internal assessment"
    case LowPerformancePredicted => "Improve total + internal marks"
  }

  /** The reasons of a list of findings, one per finding, in order. */
  function Reasons(fs: seq<Finding>): seq<string>
  {
    seq(|fs|, i requires 0 <= i < |fs| => Reason(fs[i]))
  }

  /** The suggestions of a list of findings, one per finding, in order. */
  function Suggestions(fs: seq<Finding>): seq<string>
  {
    seq(|fs|, i requires 0 <= i < |fs| => Suggestion(fs[i]))
  }

  /** Appending a finding appends its reason and its suggestion. */
  lemma ReasonsAppend(fs: seq<Finding>, f: Finding)
    ensures Reasons(fs + [f]) == Reasons(fs) + [Reason(f)]
    ensures Suggestions(fs + [f]) == Suggestions(fs) + [Suggestion(f)]
  {
  }

  /** The position of a finding's check in the evaluation order. */
  function Rank(f: Finding): nat
  {
    match f
    case SubjectBelowPass(_) => 0
    case AttendanceBelowPass => 1
    case InternalMarksLow => 2
    case LowPerformancePredicted => 3
  }

  /** The positions of the subjects whose mark is below the pass mark, in
      increasing order: each such position exactly once, no other. */
  function FailingPositions(marks: seq<real>): (ps: seq<nat>)
    ensures forall j :: 0 <= j < |ps| ==> ps[j] < |marks|
    ensures forall k :: 0 <= k < |marks| ==> (k in ps <==> marks[k] < SubjectPassMark)
    ensures forall i, j :: 0 <= i < j < |ps| ==> ps[i] < ps[j]
  {
    if marks == [] then []
    else
      var n := |marks| - 1;
      FailingPositions(marks[..n]) + (if marks[n] < SubjectPassMark then [n] else [])
  }

  /** The subject checks of the first loop, one per subject in input order. */
  function SubjectFindings(subjects: seq<string>, marks: seq<real>): (fs: seq<Finding>)
    requires |subjects| == |marks|
    ensures forall i :: 0 <= i < |fs| ==> Rank(fs[i]) == 0
  {
    if marks == [] then []
    else
      var n := |marks| - 1;
      SubjectFindings(subjects[..n], marks[..n])
        + (if marks[n] < SubjectPassMark then [SubjectBelowPass(subjects[n])] else [])
  }

  /** The attendance check: fails strictly below the pass percentage. */
  function AttendanceFindings(attendance: real): (fs: seq<Finding>)
    ensures fs == [AttendanceBelowPass] <==> attendance < AttendancePassPercentage
    ensures fs == [] <==> attendance >= AttendancePassPercentage
  {
    if attendance < AttendancePassPercentage then [AttendanceBelowPass] else []
  }

  /** The internal-marks check: fails strictly below the pass mark. */
  function InternalFindings(internalMarks: real): (fs: seq<Finding>)
    ensures fs == [InternalMarksLow] <==> internalMarks < InternalPassMark
    ensures fs == [] <==> internalMarks >= InternalPassMark
  {
    if internalMarks < InternalPassMark then [InternalMarksLow] else []
  }

  /** All rule checks, in the order the source runs them: the subject
      findings first, then at most two more. */
  function RuleFindings(subjects: seq<string>, marks: seq<real>, attendance: real, internalMarks: real): (fs: seq<Finding>)
    requires |subjects| == |marks|
    ensures var sub := SubjectFindings(subjects, marks);
      |sub| <= |fs| <= |sub| + 2 && fs[..|sub|] == sub
  {
    SubjectFindings(subjects, marks) + AttendanceFindings(attendance) + InternalFindings(internalMarks)
  }

  /** The classifier's contribution; `None` stands for a model that could
      not be loaded and contributes nothing. */
  function PredictionFindings(predicted: Option<string>): (fs: seq<Finding>)
    ensures fs == [LowPerformancePredicted] <==> predicted == Some(WorstGrade)
    ensures fs == [] <==> predicted != Some(WorstGrade)
  {
    if predicted == Some(WorstGrade) then [LowPerformancePredicted] else []
  }

  /** Everything that failed, rules first, then the classifier: nothing
      exactly when every rule passes and the prediction is not "D". */
  function Findings(subjects: seq<string>, marks: seq<real>, attendance: real,
                    internalMarks: real, predicted: Option<string>): (fs: seq<Finding>)
    requires |subjects| == |marks|
    ensures fs == [] <==> RuleFindings(subjects, marks, attendance, internalMarks) == []
                          && predicted != Some(WorstGrade)
  {
    RuleFindings(subjects, marks, attendance, internalMarks) + PredictionFindings(predicted)
  }

  /** The grade shown: the classifier's answer, or "N/A" without a model.
      Only a predicted "D" is shown as "D". */
  function Grade(predicted: Option<string>): (g: string)
    ensures predicted.Some? ==> g == predicted.value
    ensures g == WorstGrade <==> predicted == Some(WorstGrade)
  {
    match predicted
    case None => NoGrade
    case Some(g) => g
  }

  /** `"FAIL" if fail_reasons else "PASS"`. */
  function Status(reasons: seq<string>): (s: string)
    ensures s == Fail <==> reasons != []
    ensures s == Pass <==> reasons == []
  {
    if reasons != [] then Fail else Pass
  }

  /** The i-th subject finding names the subject at the i-th failing
      position: one finding per failing subject, in input order. */
  lemma {:induction false} SubjectFindingsFollowPositions(subjects: seq<string>, marks: seq<real>)
    requires |subjects| == |marks|
    ensures var fs, ps := SubjectFindings(subjects, marks), FailingPositions(marks);
      |fs| == |ps| && forall j :: 0 <= j < |fs| ==> fs[j] == SubjectBelowPass(subjects[ps[j]])
  {
    if marks != [] {
      var n := |marks| - 1;
      SubjectFindingsFollowPositions(subjects[..n], marks[..n]);
      var ps := FailingPositions(marks);
      assert forall j :: 0 <= j < |FailingPositions(marks[..n])| ==> ps[j] < n;
    }
  }

  /** The set of failing subject positions, stated without recursion. */
  ghost function FailingSet(marks: seq<real>): set<nat>
  {
    set k: nat | k < |marks| && marks[k] < SubjectPassMark
  }

  /** As many subject findings as subjects below the pass mark. */
  lemma {:induction false} SubjectFindingsCount(subjects: seq<string>, marks: seq<real>)
    requires |subjects| == |marks|
    ensures |SubjectFindings(subjects, marks)| == |FailingSet(marks)|
  {
    if marks != [] {
      var n := |marks| - 1;
      SubjectFindingsCount(subjects[..n], marks[..n]);
      var rest := FailingSet(marks[..n]);
      if marks[n] < SubjectPassMark {
        assert FailingSet(marks) == rest + {n};
        assert n !in rest;
      } else {
        assert FailingSet(marks) == rest;
      }
    }
  }

  /** No subject finding exactly when no mark is below the pass mark; a
      mark equal to the pass mark contributes nothing. */
  lemma {:induction false} SubjectFindingsEmptyIff(subjects: seq<string>, marks: seq<real>)
    requires |subjects| == |marks|
    ensures SubjectFindings(subjects, marks) == []
        <==> forall k :: 0 <= k < |marks| ==> marks[k] >= SubjectPassMark
  {
    if marks != [] {
      var n := |marks| - 1;
      SubjectFindingsEmptyIff(subjects[..n], marks[..n]);
      assert forall k :: 0 <= k < n ==> marks[..n][k] == marks[k];
    }
  }

  /** Findings in nondecreasing rank order. */
  ghost predicate InCheckOrder(fs: seq<Finding>)
  {
    forall i, j :: 0 <= i < j < |fs| ==> Rank(fs[i]) <= Rank(fs[j])
  }

  /** Findings come in the order the checks run: subjects, attendance,
      internal marks, classifier. */
  lemma FindingsOrdered(subjects: seq<string>, marks: seq<real>, attendance: real,
                        internalMarks: real, predicted: Option<string>)
    requires |subjects| == |marks|
    ensures InCheckOrder(Findings(subjects, marks, attendance, internalMarks, predicted))
  {
  }

  /** How many reasons a student gets: one per failing subject, plus one
      each for attendance, internal marks and a "D" prediction. */
  lemma FindingsCount(subjects: seq<string>, marks: seq<real>, attendance: real,
                      internalMarks: real, predicted: Option<string>)
    requires |subjects| == |marks|
    ensures |Findings(subjects, marks, attendance, internalMarks, predicted)|
        == |FailingSet(marks)|
           + (if attendance < AttendancePassPercentage then 1 else 0)
           + (if internalMarks < InternalPassMark then 1 else 0)
           + (if predicted == Some(WorstGrade) then 1 else 0)
  {
    SubjectFindingsCount(subjects, marks);
  }

  /** Subject findings are the only findings of rank 0. */
  lemma SubjectFindingsExclude(subjects: seq<string>, marks: seq<real>, f: Finding)
    requires |subjects| == |marks| && Rank(f) != 0
    ensures multiset(SubjectFindings(subjects, marks))[f] == 0
  {
    var sub := SubjectFindings(subjects, marks);
    assert forall i :: 0 <= i < |sub| ==> sub[i] != f;
    assert f !in sub;
  }

  /** The attendance, internal-marks and classifier findings each occur at
      most once, and exactly when their check fails (strictly below). */
  lemma SingleChecksOccurOnce(subjects: seq<string>, marks: seq<real>, attendance: real,
                              internalMarks: real, predicted: Option<string>)
    requires |subjects| == |marks|
    ensures var m := multiset(Findings(subjects, marks, attendance, internalMarks, predicted));
      && m[AttendanceBelowPass] == (if attendance < AttendancePassPercentage then 1 else 0)
      && m[InternalMarksLow] == (if internalMarks < InternalPassMark then 1 else 0)
      && m[LowPerformancePredicted] == (if predicted == Some(WorstGrade) then 1 else 0)
  {
    SubjectFindingsExclude(subjects, marks, AttendanceBelowPass);
    SubjectFindingsExclude(subjects, marks, InternalMarksLow);
    SubjectFindingsExclude(subjects, marks, LowPerformancePredicted);
    var sub := SubjectFindings(subjects, marks);
    var att, low, ai := AttendanceFindings(attendance), InternalFindings(internalMarks), PredictionFindings(predicted);
    var fs := Findings(subjects, marks, attendance, internalMarks, predicted);
    assert multiset(fs) == multiset(sub) + multiset(att) + multiset(low) + multiset(ai);
  }

  /** FAIL exactly when some rule fails or the classifier predicts "D":
      rule failures and the prediction combine by "or", neither overrides
      the other. */
  lemma FailIff(subjects: seq<string>, marks: seq<real>, attendance: real,
                internalMarks: real, predicted: Option<string>)
    requires |subjects| == |marks|
    ensures Status(Reasons(Findings(subjects, marks, attendance, internalMarks, predicted))) == Fail
        <==> (exists k :: 0 <= k < |marks| && marks[k] < SubjectPassMark)
             || attendance < AttendancePassPercentage
             || internalMarks < InternalPassMark
             || predicted == Some(WorstGrade)
  {
    SubjectFindingsEmptyIff(subjects, marks);
  }

  /** Without a model the grade is "N/A" and the verdict is the rules'
      alone; with one, the prediction only ever appends, and one finding at
      most, exactly when the grade is "D". A FAIL on the rules stays FAIL. */
  lemma PredictionOnlyAppends(subjects: seq<string>, marks: seq<real>, attendance: real,
                              internalMarks: real, predicted: Option<string>)
    requires |subjects| == |marks|
    ensures Grade(None) == NoGrade
    ensures Findings(subjects, marks, attendance, internalMarks, None)
        == RuleFindings(subjects, marks, attendance, internalMarks)
    ensures var rules := RuleFindings(subjects, marks, attendance, internalMarks);
      var fs := Findings(subjects, marks, attendance, internalMarks, predicted);
      && fs[..|rules|] == rules
      && |fs| == |rules| + (if predicted.Some? && predicted.value == WorstGrade then 1 else 0)
      && (Status(Reasons(rules)) == Fail ==> Status(Reasons(fs)) == Fail)
  {
  }

  /** A reason names its finding, so the suggestion paired with a reason is
      determined by the reason: equal reasons carry equal suggestions. */
  lemma ReasonDeterminesFinding(f: Finding, g: Finding)
    ensures Reason(f) == Reason(g) ==> f == g
  {
    var rf, rg := Reason(f), Reason(g);
    if f.SubjectBelowPass? && g.SubjectBelowPass? {
      if rf == rg {
        assert f.subject == rf[..|f.subject|];
        assert g.subject == rg[..|g.subject|];
      }
    } else if f.SubjectBelowPass? || g.SubjectBelowPass? {
      assert rf[|rf| - 1] != rg[|rg| - 1];
    }
  }

  /** The i-th suggestion belongs to the i-th reason: two positions with
      the same reason have the same suggestion. */
  lemma ReasonsAndSuggestionsAligned(fs: seq<Finding>)
    ensures |Reasons(fs)| == |Suggestions(fs)|
    ensures forall i, j ::
      (0 <= i < |fs| && 0 <= j < |fs| && Reasons(fs)[i] == Reasons(fs)[j]) ==> Suggestions(fs)[i] == Suggestions(fs)[j]
  {
    forall i, j | 0 <= i < |fs| && 0 <= j < |fs| && Reasons(fs)[i] == Reasons(fs)[j]
      ensures Suggestions(fs)[i] == Suggestions(fs)[j]
    {
      ReasonDeterminesFinding(fs[i], fs[j]);
    }
  }

  /** The loop over `zip(subjects, marks)`: one reason and one suggestion
      for each subject whose mark is below the pass mark, in input order. */
  method CheckSubjects(subjects: seq<string>, marks: seq<real>)
    returns (reasons: seq<string>, suggestions: seq<string>)
    requires |subjects| == |marks|
    ensures reasons == Reasons(SubjectFindings(subjects, marks))
    ensures suggestions == Suggestions(SubjectFindings(subjects, marks))
  {
    ghost var fs: seq<Finding> := [];
    reasons := [];
    suggestions := [];
    for i := 0 to |subjects|
      invariant fs == SubjectFindings(subjects[..i], marks[..i])
      invariant reasons == Reasons(fs) && suggestions == Suggestions(fs)
    {
      assert subjects[..i + 1][..i] == subjects[..i];
      assert marks[..i + 1][..i] == marks[..i];
      var subject, mark := subjects[i], marks[i];
      if mark < SubjectPassMark {
        ReasonsAppend(fs, SubjectBelowPass(subject));
        fs := fs + [SubjectBelowPass(subject)];
        reasons := reasons + [subject + " mark below 35"];
        suggestions := suggestions + ["Increase " + subject + " mark above 35"];
      }
    }
    assert subjects[..|subjects|] == subjects && marks[..|marks|] == marks;
  }

  /** The rule checks (the subject loop, attendance and internal marks),
      before the classifier is consulted. */
  method CheckRules(subjects: seq<string>, marks: seq<real>, attendance: real, internalMarks: real)
    returns (reasons: seq<string>, suggestions: seq<string>)
    requires |subjects| == |marks|
    ensures var fs := RuleFindings(subjects, marks, attendance, internalMarks);
      reasons == Reasons(fs) && suggestions == Suggestions(fs)
  {
    reasons, suggestions := CheckSubjects(subjects, marks);
    ghost var fs := SubjectFindings(subjects, marks);

    if attendance < AttendancePassPercentage {
      ReasonsAppend(fs, AttendanceBelowPass);
      fs := fs + [AttendanceBelowPass];
      reasons := reasons + ["Attendance below 75%"];
      suggestions := suggestions + ["Improve attendance above 75%"];
    }
    assert fs == SubjectFindings(subjects, marks) + AttendanceFindings(attendance);

    if internalMarks < InternalPassMark {
      ReasonsAppend(fs, InternalMarksLow);
      fs := fs + [InternalMarksLow];
      reasons := reasons + ["Internal marks too low"];
      suggestions := suggestions + ["Improve internal assessment"];
    }
  }

  /** The evaluation run when "Predict Result" is pressed: the rule checks,
      then the classifier's grade, then the status. `attendance` is the
      percentage computed beforehand. */
  method Evaluate(subjects: seq<string>, marks: seq<real>, attendance: real,
                  internalMarks: real, predicted: Option<string>)
    returns (reasons: seq<string>, suggestions: seq<string>, grade: string, status: string)
    requires |subjects| == |marks|
    ensures var fs := Findings(subjects, marks, attendance, internalMarks, predicted);
      reasons == Reasons(fs) && suggestions == Suggestions(fs)
    ensures grade == Grade(predicted)
    ensures status == Fail <==> reasons != []
    ensures status == Pass <==> reasons == []
  {
    reasons, suggestions := CheckRules(subjects, marks, attendance, internalMarks);
    ghost var fs := RuleFindings(subjects, marks, attendance, internalMarks);

    grade := NoGrade;

    if predicted.Some? {
      grade := predicted.value;

      if grade == WorstGrade {
        ReasonsAppend(fs, LowPerformancePredicted);
        fs := fs + [LowPerformancePredicted];
        reasons := reasons + ["Low academic performance predicted by AI"];
        suggestions := suggestions + ["Improve total + internal marks"];
      }
    }
    assert fs == Findings(subjects, marks, attendance, internalMarks, predicted);

    status := Status(reasons);
  }
}
