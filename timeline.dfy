/** The topic timeline (src/components/TimelineComponent.tsx): an ordered status
    classifier, its colour and icon maps, and one entry per topic. */
module TimelineComponent {
  import opened Types
  import Aggregates

  const DayMs := 86400000

  /** The calendar day of a timestamp (days since the epoch, UTC). */
  function Day(t: int): int
  {
    t / DayMs
  }

  datatype Status = Completed | Today | Overdue | Upcoming

  /** `getTopicStatus`: completion first, then "scheduled today", then "scheduled
      in the past", and everything else is upcoming. */
  function TopicStatus(t: Topic, now: int): (s: Status)
    ensures s == Completed <==> t.isCompleted
    ensures s == Today <==> !t.isCompleted && Day(t.scheduledDate) == Day(now)
    ensures s == Overdue <==> !t.isCompleted && Day(t.scheduledDate) != Day(now) && t.scheduledDate < now
    ensures s == Upcoming <==> !t.isCompleted && Day(t.scheduledDate) != Day(now) && t.scheduledDate >= now
  {
    if t.isCompleted then Completed
    else if Day(t.scheduledDate) == Day(now) then Today
    else if t.scheduledDate < now then Overdue
    else Upcoming
  }

  /** Later timestamps never fall on an earlier day. */
  lemma DayMonotonic(a: int, b: int)
    requires a <= b
    ensures Day(a) <= Day(b)
  {
    var qa, qb := a / DayMs, b / DayMs;
    assert a == DayMs * qa + a % DayMs && 0 <= a % DayMs < DayMs;
    assert b == DayMs * qb + b % DayMs && 0 <= b % DayMs < DayMs;
    assert DayMs * qa < DayMs * (qb + 1);
    Aggregates.CancelFactor(DayMs, qa, qb + 1);
  }

  /** An upcoming topic is scheduled on a later calendar day than today, and an
      overdue one on an earlier day. */
  lemma StatusDays(t: Topic, now: int)
    ensures TopicStatus(t, now) == Upcoming ==> Day(t.scheduledDate) > Day(now)
    ensures TopicStatus(t, now) == Overdue ==> Day(t.scheduledDate) < Day(now)
  {
    if t.scheduledDate >= now {
      DayMonotonic(now, t.scheduledDate);
    } else {
      DayMonotonic(t.scheduledDate, now);
    }
  }

  /** How far along the upcoming → today → overdue path a status is. */
  function Stage(s: Status): nat
  {
    match s
    case Upcoming => 0
    case Today => 1
    case Overdue => 2
    case Completed => 3
  }

  /** For an unmodified topic, the status only moves forward as time passes:
      upcoming may become today or overdue, today may become overdue, and
      overdue stays overdue. */
  lemma StatusAdvancesWithTime(t: Topic, now1: int, now2: int)
    requires now1 <= now2
    ensures Stage(TopicStatus(t, now1)) <= Stage(TopicStatus(t, now2))
  {
    DayMonotonic(now1, now2);
    StatusDays(t, now1);
    StatusDays(t, now2);
    var d := t.scheduledDate;
    if d < now2 {
      DayMonotonic(d, now2);
    } else {
      DayMonotonic(now2, d);
    }
  }

  /** The string `getTopicStatus` returns. */
  function StatusName(s: Status): string
  {
    match s
    case Completed => "completed"
    case Today => "today"
    case Overdue => "overdue"
    case Upcoming => "upcoming"
  }

  const GreyBorder := "border-gray-300 bg-gray-50"

  /** `getStatusColor`: three fixed classes and a grey default for any other string. */
  function StatusColor(status: string): (c: string)
    ensures c == GreyBorder <==> status != "completed" && status != "today" && status != "overdue"
  {
    assert "border-green-500 bg-green-50"[9] != GreyBorder[9];
    assert "border-blue-500 bg-blue-50"[7] != GreyBorder[7];
    assert "border-red-500 bg-red-50"[7] != GreyBorder[7];
    if status == "completed" then "border-green-500 bg-green-50"
    else if status == "today" then "border-blue-500 bg-blue-50"
    else if status == "overdue" then "border-red-500 bg-red-50"
    else GreyBorder
  }

  datatype IconShape = CheckIcon | ClockIcon | AlertIcon
  datatype Icon = Icon(shape: IconShape, color: string)

  /** `getStatusIcon`: three fixed icons and a grey clock for any other string. */
  function StatusIcon(status: string): (i: Icon)
    ensures i.shape == CheckIcon <==> status == "completed"
    ensures i.shape == AlertIcon <==> status == "overdue"
    ensures i == Icon(ClockIcon, "text-gray-400") <==> status != "completed" && status != "today" && status != "overdue"
  {
    assert "text-blue-600"[5] != "text-gray-400"[5];
    if status == "completed" then Icon(CheckIcon, "text-green-600")
    else if status == "today" then Icon(ClockIcon, "text-blue-600")
    else if status == "overdue" then Icon(AlertIcon, "text-red-600")
    else Icon(ClockIcon, "text-gray-400")
  }

  /** The four statuses get four different colours and four different icons,
      and an upcoming topic is drawn with the grey default. */
  lemma StatusStylesDistinct(a: Status, b: Status)
    ensures a != b ==> StatusColor(StatusName(a)) != StatusColor(StatusName(b))
    ensures a != b ==> StatusIcon(StatusName(a)) != StatusIcon(StatusName(b))
    ensures StatusColor(StatusName(Upcoming)) == GreyBorder
    ensures StatusIcon(StatusName(Upcoming)) == Icon(ClockIcon, "text-gray-400")
  {
    assert "upcoming"[0] == 'u';
  }

  /** One rendered row of the timeline. */
  datatype Entry = Entry(
    status: Status,
    color: string,
    icon: Icon,
    connector: bool,
    toggleTarget: string,
    buttonLabel: string)

  /** One topic's row: its status drawn with that status's colour and icon, a
      connector unless it is the last row, and a button that toggles this topic. */
  function EntryFor(t: Topic, now: int, isLast: bool): (e: Entry)
    ensures e.status == TopicStatus(t, now)
    ensures e.color == StatusColor(StatusName(e.status)) && e.icon == StatusIcon(StatusName(e.status))
    ensures e.connector <==> !isLast
    ensures e.toggleTarget == t.id
    ensures e.buttonLabel == "Completed" <==> t.isCompleted
  {
    assert "Mark Complete"[0] != "Completed"[0];
    var s := TopicStatus(t, now);
    Entry(s, StatusColor(StatusName(s)), StatusIcon(StatusName(s)), !isLast, t.id,
          if t.isCompleted then "Completed" else "Mark Complete")
  }

  /** `topics.map(...)`: one entry per topic, in order; every entry but the last
      draws a connector; each button toggles its own topic and reads "Completed"
      exactly when the topic is completed. */
  function Timeline(topics: seq<Topic>, now: int): (r: seq<Entry>)
    ensures |r| == |topics|
    ensures forall i :: 0 <= i < |r| ==> r[i].status == TopicStatus(topics[i], now)
    ensures forall i :: 0 <= i < |r| ==>
      r[i].color == StatusColor(StatusName(r[i].status)) && r[i].icon == StatusIcon(StatusName(r[i].status))
    ensures forall i :: 0 <= i < |r| ==> (r[i].connector <==> i != |topics| - 1)
    ensures forall i :: 0 <= i < |r| ==> r[i].toggleTarget == topics[i].id
    ensures forall i :: 0 <= i < |r| ==> (r[i].buttonLabel == "Completed" <==> topics[i].isCompleted)
  {
    seq(|topics|, i requires 0 <= i < |topics| => EntryFor(topics[i], now, i == |topics| - 1))
  }
}
