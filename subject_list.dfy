/** The subject list of the Student View (streamlit_app.py:147-154): one
    name and one mark per subject, an empty name replaced by
    "Subject <i+1>". */
module SubjectList {

  /** The character of a decimal digit. */
  function DigitChar(d: int): char
    requires 0 <= d < 10
  {
    ('0' as int + d) as char
  }

  predicate IsDigits(s: string)
  {
    forall i :: 0 <= i < |s| ==> '0' <= s[i] <= '9'
  }

  /** Python's decimal rendering of a natural number, as in `f"{i+1}"`:
      at least one digit, and no leading zero. */
  function DecimalString(n: nat): (s: string)
    ensures |s| >= 1 && IsDigits(s)
    ensures s[0] == '0' <==> n == 0
    decreases n
  {
    if n < 10 then [DigitChar(n)] else DecimalString(n / 10) + [DigitChar(n % 10)]
  }

  /** The number a string of decimal digits denotes. */
  function DecimalValue(s: string): nat
    requires IsDigits(s)
  {
    if s == [] then 0
    else DecimalValue(s[..|s| - 1]) * 10 + (s[|s| - 1] as int - '0' as int)
  }

  /** Reading the rendering back gives the number. */
  lemma {:induction false} DecimalRoundTrip(n: nat)
    ensures DecimalValue(DecimalString(n)) == n
    decreases n
  {
    var s := DecimalString(n);
    if n >= 10 {
      DecimalRoundTrip(n / 10);
      assert s[..|s| - 1] == DecimalString(n / 10);
    }
  }

  const DefaultPrefix: string := "Subject "

  /** The label a subject gets when its name is left empty. */
  function DefaultSubjectName(i: nat): string
  {
    DefaultPrefix + DecimalString(i + 1)
  }

  /** Two different positions never get the same default label. */
  lemma DefaultNamesDistinct(i: nat, j: nat)
    requires i != j
    ensures DefaultSubjectName(i) != DefaultSubjectName(j)
  {
    if DefaultSubjectName(i) == DefaultSubjectName(j) {
      assert DefaultSubjectName(i)[|DefaultPrefix|..] == DecimalString(i + 1);
      assert DefaultSubjectName(j)[|DefaultPrefix|..] == DecimalString(j + 1);
      DecimalRoundTrip(i + 1);
      DecimalRoundTrip(j + 1);
    }
  }

  /** `subject if subject else f"Subject {i+1}"`: the name typed for
      position i, or the default label when nothing was typed: the prefix
      followed by the digits of i + 1, without a leading zero. */
  function SubjectName(typed: string, i: nat): (name: string)
    ensures name != ""
    ensures typed != "" ==> name == typed
    ensures typed == "" ==>
      var n := |DefaultPrefix|;
      |name| > n && name[..n] == DefaultPrefix && name[n] != '0' &&
      IsDigits(name[n..]) && DecimalValue(name[n..]) == i + 1
  {
    if typed != "" then typed
    else
      DecimalRoundTrip(i + 1);
      assert DefaultSubjectName(i)[|DefaultPrefix|..] == DecimalString(i + 1);
      DefaultSubjectName(i)
  }

  /** The loop that collects `num_subjects` names and marks from the input
      widgets, given here as the sequences of what was typed per position. */
  method BuildSubjectList(numSubjects: nat, typedNames: seq<string>, typedMarks: seq<real>)
    returns (subjects: seq<string>, marks: seq<real>)
    requires |typedNames| == numSubjects && |typedMarks| == numSubjects
    ensures |subjects| == numSubjects && |marks| == numSubjects
    ensures marks == typedMarks
    ensures forall i :: 0 <= i < numSubjects ==> subjects[i] == SubjectName(typedNames[i], i)
    ensures forall i :: 0 <= i < numSubjects ==> subjects[i] != ""
  {
    subjects := [];
    marks := [];
    for i := 0 to numSubjects
      invariant |subjects| == i && marks == typedMarks[..i]
      invariant forall k :: 0 <= k < i ==> subjects[k] == SubjectName(typedNames[k], k)
    {
      var subject := typedNames[i];
      subjects := subjects + [if subject != "" then subject else DefaultSubjectName(i)];
      marks := marks + [typedMarks[i]];
    }
  }
}
