/** The student dashboard (src/components/StudentDashboard.tsx): a fixed subject
    list summed into an overall progress figure, notifications with an unread
    badge, and the notification panel flag. */
module StudentDashboard {
  import opened Types
  import Aggregates

  /** A subject's counters are consistent: nothing negative, no more completed
      than scheduled. */
  predicate WellFormed(s: Subject)
  {
    0 <= s.completedTopics <= s.totalTopics
  }

  predicate AllWellFormed(subjects: seq<Subject>)
  {
    forall i :: 0 <= i < |subjects| ==> WellFormed(subjects[i])
  }

  /** `subjects.reduce((sum, s) => sum + s.totalTopics, 0)`. */
  function TotalTopics(subjects: seq<Subject>): (n: int)
    ensures subjects == [] ==> n == 0
    ensures |subjects| == 1 ==> n == subjects[0].totalTopics
  {
    if subjects == [] then 0 else subjects[0].totalTopics + TotalTopics(subjects[1..])
  }

  /** `subjects.reduce((sum, s) => sum + s.completedTopics, 0)`. */
  function TotalCompleted(subjects: seq<Subject>): (n: int)
    ensures subjects == [] ==> n == 0
    ensures |subjects| == 1 ==> n == subjects[0].completedTopics
  {
    if subjects == [] then 0 else subjects[0].completedTopics + TotalCompleted(subjects[1..])
  }

  /** Summing well-formed subjects keeps the completed total between zero and
      the topic total. */
  lemma {:induction false} TotalsBounded(subjects: seq<Subject>)
    requires AllWellFormed(subjects)
    ensures 0 <= TotalCompleted(subjects) <= TotalTopics(subjects)
  {
    if subjects != [] {
      assert WellFormed(subjects[0]);
      TotalsBounded(subjects[1..]);
    }
  }

  /** Both sums add up subject by subject, so a list can be summed in pieces. */
  lemma {:induction false} TotalsAppend(a: seq<Subject>, b: seq<Subject>)
    ensures TotalTopics(a + b) == TotalTopics(a) + TotalTopics(b)
    ensures TotalCompleted(a + b) == TotalCompleted(a) + TotalCompleted(b)
  {
    if a == [] {
      assert a + b == b;
    } else {
      assert (a + b)[1..] == a[1..] + b;
      TotalsAppend(a[1..], b);
    }
  }

  /** `overallProgress`: the completed share of all topics, rounded half up. The
      source divides without a guard, so the topic total must be positive here. */
  function OverallProgress(subjects: seq<Subject>): (p: int)
    requires TotalTopics(subjects) > 0
    ensures 2 * TotalTopics(subjects) * p <= 200 * TotalCompleted(subjects) + TotalTopics(subjects)
    ensures 200 * TotalCompleted(subjects) + TotalTopics(subjects) < 2 * TotalTopics(subjects) * (p + 1)
  {
    Aggregates.RoundPercent(TotalCompleted(subjects), TotalTopics(subjects))
  }

  /** Over well-formed subjects the overall figure is a percentage. */
  lemma OverallProgressInRange(subjects: seq<Subject>)
    requires AllWellFormed(subjects) && TotalTopics(subjects) > 0
    ensures 0 <= OverallProgress(subjects) <= 100
  {
    TotalsBounded(subjects);
    Aggregates.PercentInRange(TotalCompleted(subjects), TotalTopics(subjects));
  }

  function SeedSubjects(): (subjects: seq<Subject>)
    ensures |subjects| == 5 && AllWellFormed(subjects)
  {
    [ Subject("1", "Mathematics", 20, 15, "#3B82F6"),
      Subject("2", "Physics", 18, 12, "#10B981"),
      Subject("3", "Chemistry", 16, 14, "#F59E0B"),
      Subject("4", "Biology", 22, 8, "#EF4444"),
      Subject("5", "English", 15, 13, "#8B5CF6") ]
  }

  function SeedNotifications(now: int): seq<Notification>
  {
    [ Notification("1", "Physics exam in 3 days - Chapter 5 & 6", Warning, now, false),
      Notification("2", "Math assignment due tomorrow", Warning, now - 3600000, false),
      Notification("3", "Complete Chemistry lab report by Friday", Info, now - 7200000, true) ]
  }

  /** The seeded dashboard shows 62 of 91 topics done, which rounds to 68%,
      and two unread notifications. */
  lemma SeededFigures(now: int)
    ensures TotalTopics(SeedSubjects()) == 91
    ensures TotalCompleted(SeedSubjects()) == 62
    ensures OverallProgress(SeedSubjects()) == 68
    ensures Aggregates.UnreadCount(SeedNotifications(now)) == 2
  {
    var s := SeedSubjects();
    assert s[4..][1..] == [];
    assert s[3..][1..] == s[4..];
    assert s[2..][1..] == s[3..];
    assert s[1..][1..] == s[2..];
    var n := SeedNotifications(now);
    assert n[2..][1..] == [];
    assert n[1..][1..] == n[2..];
  }

  /** The two-subject example: 27 of 38 topics rounds to 71%. */
  lemma TwoSubjectExample()
    ensures OverallProgress([Subject("a", "A", 20, 15, ""), Subject("b", "B", 18, 12, "")]) == 71
  {
    var s := [Subject("a", "A", 20, 15, ""), Subject("b", "B", 18, 12, "")];
    assert s[1..][1..] == [];
  }

  /** The dashboard's state; only the panel flag ever changes. */
  class StudentState {
    var subjects: seq<Subject>
    var notifications: seq<Notification>
    var showNotifications: bool

    constructor (now: int)
      ensures subjects == SeedSubjects() && notifications == SeedNotifications(now)
      ensures !showNotifications
    {
      subjects := SeedSubjects();
      notifications := SeedNotifications(now);
      showNotifications := false;
    }


    /** The bell button flips the notification panel and nothing else. */
    method ToggleNotifications()
      modifies this
      ensures showNotifications == !old(showNotifications)
      ensures subjects == old(subjects) && notifications == old(notifications)
    {
      showNotifications := !showNotifications;
    }
  }
}
