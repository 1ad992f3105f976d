/** The student's pie chart (src/components/ProgressPieChart.tsx): one label and
    one rounded percentage per subject, a tooltip with the remaining count, and
    the overall figure under the chart. */
module ProgressPieChart {
  import opened Types
  import Aggregates
  import StudentDashboard

  /** Every subject has topics; the source divides by each total unguarded. */
  predicate AllHaveTopics(subjects: seq<Subject>)
  {
    forall i :: 0 <= i < |subjects| ==> subjects[i].totalTopics > 0
  }

  /** One slice's value: `Math.round(completed / total * 100)`. */
  function SubjectPercent(s: Subject): (p: int)
    requires s.totalTopics > 0
    ensures 2 * s.totalTopics * p <= 200 * s.completedTopics + s.totalTopics < 2 * s.totalTopics * (p + 1)
    ensures s.completedTopics == s.totalTopics ==> p == 100
    ensures s.completedTopics == 0 ==> p == 0
    ensures StudentDashboard.WellFormed(s) ==> 0 <= p <= 100
  {
    var p := Aggregates.RoundPercent(s.completedTopics, s.totalTopics);
    Aggregates.PercentEndpoints(s.totalTopics);
    assert StudentDashboard.WellFormed(s) ==> 0 <= p <= 100 by {
      if StudentDashboard.WellFormed(s) {
        Aggregates.PercentInRange(s.completedTopics, s.totalTopics);
      }
    }
    p
  }

  /** The tooltip's "Remaining: n topics". */
  function Remaining(s: Subject): (n: int)
    ensures StudentDashboard.WellFormed(s) ==> 0 <= n <= s.totalTopics
    ensures n + s.completedTopics == s.totalTopics
  {
    s.totalTopics - s.completedTopics
  }

  /** A subject list with topics in every subject has topics overall. */
  lemma {:induction false} TopicsOverall(subjects: seq<Subject>)
    requires AllHaveTopics(subjects) && |subjects| > 0
    ensures StudentDashboard.TotalTopics(subjects) > 0
  {
    if |subjects| > 1 {
      TopicsOverall(subjects[1..]);
    }
  }

  /** The rendered chart: labels, slice values, tooltip remainders, and the
      overall figure with the two sums it is made of. */
  datatype PieView = PieView(
    labels: seq<string>,
    slices: seq<int>,
    remaining: seq<int>,
    overall: int,
    totalCompleted: int,
    totalTopics: int)

  /** The whole chart. One entry per subject in input order; the overall figure
      is the student dashboard's own, so the two views always agree. */
  function PieChart(subjects: seq<Subject>): (v: PieView)
    requires |subjects| > 0 && AllHaveTopics(subjects)
    ensures |v.labels| == |subjects| && |v.slices| == |subjects| && |v.remaining| == |subjects|
    ensures forall i :: 0 <= i < |subjects| ==>
      v.labels[i] == subjects[i].name && v.slices[i] == SubjectPercent(subjects[i])
      && v.remaining[i] == Remaining(subjects[i])
    ensures v.totalTopics == StudentDashboard.TotalTopics(subjects) > 0
    ensures v.totalCompleted == StudentDashboard.TotalCompleted(subjects)
    ensures v.overall == StudentDashboard.OverallProgress(subjects)
    ensures StudentDashboard.AllWellFormed(subjects) ==>
      0 <= v.overall <= 100 && forall i :: 0 <= i < |subjects| ==> 0 <= v.slices[i] <= 100
  {
    TopicsOverall(subjects);
    assert StudentDashboard.AllWellFormed(subjects) ==> 0 <= StudentDashboard.OverallProgress(subjects) <= 100 by {
      if StudentDashboard.AllWellFormed(subjects) {
        StudentDashboard.OverallProgressInRange(subjects);
      }
    }
    PieView(
      seq(|subjects|, i requires 0 <= i < |subjects| => subjects[i].name),
      seq(|subjects|, i requires 0 <= i < |subjects| => SubjectPercent(subjects[i])),
      seq(|subjects|, i requires 0 <= i < |subjects| => Remaining(subjects[i])),
      StudentDashboard.OverallProgress(subjects),
      StudentDashboard.TotalCompleted(subjects),
      StudentDashboard.TotalTopics(subjects))
  }
}
