/** The numeric aggregates of the Student View: total marks, percentage of
    the maximum and attendance percentage (streamlit_app.py:164-172).
    Marks and percentages are exact reals. */
module Aggregates {

  /** Each subject is marked out of this many marks. */
  const MarksPerSubject: nat := 100

  /** Every mark is at least 0, as the input widget keeps it. */
  predicate NonNegative(marks: seq<real>)
  {
    marks == [] || (NonNegative(marks[..|marks| - 1]) && marks[|marks| - 1] >= 0.0)
  }

  /** Python's `sum(marks)`, adding left to right; non-negative marks give
      a non-negative total. */
  function Sum(marks: seq<real>): (total: real)
    ensures NonNegative(marks) ==> total >= 0.0
  {
    if marks == [] then 0.0 else Sum(marks[..|marks| - 1]) + marks[|marks| - 1]
  }

  /** When every mark lies in [lo, hi], the total lies in [n * lo, n * hi]. */
  lemma {:induction false} SumBounds(marks: seq<real>, lo: real, hi: real)
    requires forall i :: 0 <= i < |marks| ==> lo <= marks[i] <= hi
    ensures |marks| as real * lo <= Sum(marks) <= |marks| as real * hi
  {
    if marks != [] {
      var n := |marks| - 1;
      SumBounds(marks[..n], lo, hi);
      var rest, last := Sum(marks[..n]), marks[n];
      var k := n as real;
      assert Sum(marks) == rest + last;
      assert |marks| as real == k + 1.0;
      assert (k + 1.0) * lo == k * lo + lo && (k + 1.0) * hi == k * hi + hi;
    }
  }

  /** `max_marks = num_subjects * 100`, then the percentage of the total
      over it, or 0 when `max_marks` is 0. The result scaled back by
      `max_marks / 100` gives the total again. */
  function Percentage(total: real, numSubjects: nat): (p: real)
    ensures numSubjects == 0 ==> p == 0.0
    ensures numSubjects > 0 ==> p * (numSubjects * MarksPerSubject) as real == total * 100.0
  {
    var maxMarks := numSubjects * MarksPerSubject;
    if maxMarks != 0 then total / maxMarks as real * 100.0 else 0.0
  }

  /** A share p of n subjects' worth of marks, with the total between 0
      and n * 100, lies between 0 and 100. */
  lemma ShareInRange(p: real, n: real, total: real)
    requires n >= 1.0 && p * (n * 100.0) == total * 100.0
    requires 0.0 <= total <= n * 100.0
    ensures 0.0 <= p <= 100.0
  {
    assert p * n == total;
  }

  /** With every mark between 0 and 100 the percentage is between 0 and 100. */
  lemma PercentageInRange(marks: seq<real>, numSubjects: nat)
    requires |marks| == numSubjects
    requires forall i :: 0 <= i < |marks| ==> 0.0 <= marks[i] <= 100.0
    ensures 0.0 <= Percentage(Sum(marks), numSubjects) <= 100.0
  {
    SumBounds(marks, 0.0, 100.0);
    if numSubjects > 0 {
      ShareInRange(Percentage(Sum(marks), numSubjects), numSubjects as real, Sum(marks));
    }
  }

  /** `(total_working_days - leaves) / total_working_days * 100`; the
      input widget keeps the number of working days at 1 or more. */
  function AttendancePercentage(workingDays: int, leaves: int): (a: real)
    requires workingDays >= 1
    ensures a * workingDays as real == (workingDays - leaves) as real * 100.0
  {
    (workingDays - leaves) as real / workingDays as real * 100.0
  }

  /** The attendance test `attendance < 75`, stated on integers only:
      below a whole-number threshold exactly when the days attended times
      100 fall short of the threshold times the working days. */
  lemma AttendanceBelowIff(workingDays: int, leaves: int, threshold: int)
    requires workingDays >= 1
    ensures AttendancePercentage(workingDays, leaves) < threshold as real
        <==> (workingDays - leaves) * 100 < threshold * workingDays
  {
    var a := AttendancePercentage(workingDays, leaves);
    var d := workingDays as real;
    assert (threshold * workingDays) as real == threshold as real * d;
    assert ((workingDays - leaves) * 100) as real == (workingDays - leaves) as real * 100.0;
  }

  /** When no more leaves than working days are taken, attendance lies in [0, 100]. */
  lemma AttendanceInRange(workingDays: int, leaves: int)
    requires workingDays >= 1 && 0 <= leaves <= workingDays
    ensures 0.0 <= AttendancePercentage(workingDays, leaves) <= 100.0
  {
  }
}
