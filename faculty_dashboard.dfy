/** The faculty dashboard (src/components/FacultyDashboard.tsx): a topic list that
    is toggled and appended to, a year filter, and two panel flags. */
module FacultyDashboard {
  import opened Types
  import Aggregates
  import TimelineComponent

  /** A topic carries a completion date exactly when it is completed. */
  predicate DateMatchesCompletion(t: Topic)
  {
    t.completedDate.Some? <==> t.isCompleted
  }

  predicate AllDatesMatch(ts: seq<Topic>)
  {
    forall i :: 0 <= i < |ts| ==> DateMatchesCompletion(ts[i])
  }

  /** No two topics share an id. */
  predicate UniqueIds(ts: seq<Topic>)
  {
    forall i, j :: 0 <= i < j < |ts| ==> ts[i].id != ts[j].id
  }

  predicate IdUnused(ts: seq<Topic>, id: string)
  {
    forall i :: 0 <= i < |ts| ==> ts[i].id != id
  }

  /** One topic after its toggle: completion flips, the date becomes `now` on
      completion and disappears otherwise, every other field is kept. */
  function ToggleTopic(t: Topic, now: int): (r: Topic)
    ensures r.isCompleted == !t.isCompleted
    ensures r.completedDate == (if r.isCompleted then Some(now) else None)
    ensures DateMatchesCompletion(r)
    ensures r.(isCompleted := t.isCompleted, completedDate := t.completedDate) == t
  {
    t.(isCompleted := !t.isCompleted, completedDate := if !t.isCompleted then Some(now) else None)
  }

  /** `handleTopicToggle`'s `prev.map(...)`: toggle every topic whose id matches. */
  function ToggleTopics(ts: seq<Topic>, id: string, now: int): (r: seq<Topic>)
    ensures |r| == |ts|
    ensures forall i :: 0 <= i < |ts| && ts[i].id == id ==> r[i] == ToggleTopic(ts[i], now)
    ensures forall i :: 0 <= i < |ts| && ts[i].id != id ==> r[i] == ts[i]
  {
    if ts == [] then []
    else
      var rest := ToggleTopics(ts[1..], id, now);
      var r := [if ts[0].id == id then ToggleTopic(ts[0], now) else ts[0]] + rest;
      assert forall i :: 1 <= i < |ts| ==> r[i] == rest[i - 1] && ts[i] == ts[1..][i - 1];
      r
  }

  /** Toggling keeps the date/completion rule. */
  lemma TogglePreservesDates(ts: seq<Topic>, id: string, now: int)
    requires AllDatesMatch(ts)
    ensures AllDatesMatch(ToggleTopics(ts, id, now))
  {
  }

  /** Toggling keeps every id in place, so it keeps ids unique. */
  lemma TogglePreservesIds(ts: seq<Topic>, id: string, now: int)
    ensures forall i :: 0 <= i < |ts| ==> ToggleTopics(ts, id, now)[i].id == ts[i].id
    ensures UniqueIds(ts) ==> UniqueIds(ToggleTopics(ts, id, now))
  {
  }

  /** Toggling the same id twice restores every completion flag; a toggled topic
      comes back exactly as it was iff it was open or had been completed at the
      second toggle's time, and the other topics are untouched. */
  lemma ToggleTwice(ts: seq<Topic>, id: string, t1: int, t2: int)
    requires AllDatesMatch(ts)
    ensures var r := ToggleTopics(ToggleTopics(ts, id, t1), id, t2);
      && |r| == |ts|
      && (forall i :: 0 <= i < |ts| ==> r[i].isCompleted == ts[i].isCompleted)
      && (forall i :: 0 <= i < |ts| && ts[i].id == id ==>
            (r[i] == ts[i] <==> (!ts[i].isCompleted || ts[i].completedDate == Some(t2))))
      && (forall i :: 0 <= i < |ts| && ts[i].id != id ==> r[i] == ts[i])
  {
    var once := ToggleTopics(ts, id, t1);
    var r := ToggleTopics(once, id, t2);
    forall i | 0 <= i < |ts|
      ensures r[i].isCompleted == ts[i].isCompleted
      ensures ts[i].id == id ==> (r[i] == ts[i] <==> (!ts[i].isCompleted || ts[i].completedDate == Some(t2)))
      ensures ts[i].id != id ==> r[i] == ts[i]
    {
      assert once[i].id == ts[i].id;
      if ts[i].id == id && ts[i].isCompleted && ts[i].completedDate != Some(t2) {
        assert r[i].completedDate != ts[i].completedDate;
      }
    }
  }

  /** `filteredTopics`: the topics of one year, in list order. */
  function FilterByYear(ts: seq<Topic>, year: int): (r: seq<Topic>)
    ensures |r| <= |ts|
    ensures forall i :: 0 <= i < |r| ==> r[i].year == year
    ensures forall t :: t in r <==> t in ts && t.year == year
    ensures |ts| == 1 ==> r == (if ts[0].year == year then ts else [])
  {
    if ts == [] then []
    else
      var rest := FilterByYear(ts[1..], year);
      assert forall t :: t in ts <==> t == ts[0] || t in ts[1..];
      if ts[0].year == year then [ts[0]] + rest else rest
  }

  /** Filtering distributes over concatenation: it keeps the original order. */
  lemma {:induction false} FilterAppend(a: seq<Topic>, b: seq<Topic>, year: int)
    ensures FilterByYear(a + b, year) == FilterByYear(a, year) + FilterByYear(b, year)
  {
    if a == [] {
      assert a + b == b;
    } else {
      assert (a + b)[1..] == a[1..] + b;
      FilterAppend(a[1..], b, year);
    }
  }

  /** A draft from the add-topic form: a topic without its id. */
  datatype TopicDraft = TopicDraft(
    name: string,
    description: string,
    scheduledDate: int,
    completedDate: Option<int>,
    isCompleted: bool,
    subject: string,
    year: int)

  function WithId(d: TopicDraft, id: string): (t: Topic)
    ensures t.id == id && t.name == d.name && t.year == d.year && t.subject == d.subject
    ensures t.isCompleted == d.isCompleted && t.completedDate == d.completedDate
    ensures t.scheduledDate == d.scheduledDate && t.description == d.description
  {
    Topic(id, d.name, d.description, d.scheduledDate, d.completedDate, d.isCompleted, d.subject, d.year)
  }

  /** Toggling an id that is unused changes nothing. */
  lemma ToggleUnknownId(ts: seq<Topic>, id: string, now: int)
    requires IdUnused(ts, id)
    ensures ToggleTopics(ts, id, now) == ts
  {
  }

  /** After an append with a fresh id, toggling the new topic touches only it,
      and toggling any older id leaves it alone. */
  lemma ToggleAfterAdd(ts: seq<Topic>, d: TopicDraft, id: string, other: string, now: int)
    requires IdUnused(ts, id) && other != id
    ensures ToggleTopics(ts + [WithId(d, id)], id, now) == ts + [ToggleTopic(WithId(d, id), now)]
    ensures ToggleTopics(ts + [WithId(d, id)], other, now) == ToggleTopics(ts, other, now) + [WithId(d, id)]
  {
  }

  /** The timeline is drawn from the filtered topics and its buttons call the
      toggle: with unique ids, the button of the i-th entry changes exactly one
      topic of the full list, the one the entry shows. */
  lemma TimelineButtonTogglesItsTopic(ts: seq<Topic>, year: int, now: int, i: nat)
    requires UniqueIds(ts) && i < |FilterByYear(ts, year)|
    ensures var shown := FilterByYear(ts, year);
      var r := ToggleTopics(ts, TimelineComponent.Timeline(shown, now)[i].toggleTarget, now);
      exists m :: 0 <= m < |ts| && ts[m] == shown[i]
        && forall k :: 0 <= k < |ts| ==> (r[k] != ts[k] <==> k == m)
  {
    var shown := FilterByYear(ts, year);
    var id := TimelineComponent.Timeline(shown, now)[i].toggleTarget;
    assert shown[i] in ts;
    var m :| 0 <= m < |ts| && ts[m] == shown[i];
    var r := ToggleTopics(ts, id, now);
    forall k | 0 <= k < |ts|
      ensures r[k] != ts[k] <==> k == m
    {
      if k != m {
        assert ts[k].id != ts[m].id;
      }
    }
  }

  // Seeded data; dates are UTC midnight timestamps in milliseconds.
  const Jan15 := 1705276800000
  const Jan20 := 1705708800000
  const Jan25 := 1706140800000
  const HourMs := 3600000

  function SeedTopics(): (ts: seq<Topic>)
    ensures |ts| == 3 && AllDatesMatch(ts) && UniqueIds(ts)
  {
    [ Topic("1", "Introduction to Calculus", "Basic concepts of differentiation and integration",
            Jan15, Some(Jan15), true, "Mathematics", 1),
      Topic("2", "Linear Algebra", "Vectors, matrices and linear transformations",
            Jan20, None, false, "Mathematics", 1),
      Topic("3", "Probability Theory", "Basic probability concepts and distributions",
            Jan25, None, false, "Mathematics", 2) ]
  }

  function SeedNotifications(now: int): (ns: seq<Notification>)
    ensures |ns| == 2 && Aggregates.UnreadCount(ns) == 1
  {
    [ Notification("1", "Linear Algebra topic is 2 days behind schedule", Warning, now, false),
      Notification("2", "Calculus module completed successfully", Success, now - HourMs, true) ]
  }

  /** The dashboard's state. */
  class FacultyState {
    var selectedYear: int
    var showNotifications: bool
    var showAddTopic: bool
    var topics: seq<Topic>
    var notifications: seq<Notification>

    /** The selector only offers years 1..4 and topic ids stay unique. */
    ghost predicate Valid()
      reads this
    {
      1 <= selectedYear <= 4 && UniqueIds(topics)
    }

    constructor (now: int)
      ensures Valid()
      ensures selectedYear == 1 && !showNotifications && !showAddTopic
      ensures topics == SeedTopics() && AllDatesMatch(topics)
      ensures notifications == SeedNotifications(now)
    {
      selectedYear := 1;
      showNotifications := false;
      showAddTopic := false;
      topics := SeedTopics();
      notifications := SeedNotifications(now);
    }

    /** What the timeline and the progress chart receive. */
    function FilteredTopics(): seq<Topic>
      reads this
    {
      FilterByYear(topics, selectedYear)
    }


    /** `handleTopicToggle`. */
    method HandleTopicToggle(id: string, now: int)
      requires Valid()
      modifies this
      ensures Valid()
      ensures topics == ToggleTopics(old(topics), id, now)
      ensures AllDatesMatch(old(topics)) ==> AllDatesMatch(topics)
      ensures selectedYear == old(selectedYear) && notifications == old(notifications)
      ensures showNotifications == old(showNotifications) && showAddTopic == old(showAddTopic)
    {
      TogglePreservesIds(topics, id, now);
      topics := ToggleTopics(topics, id, now);
    }

    /** `handleAddTopic`: append the draft under a fresh id and close the panel. */
    method HandleAddTopic(d: TopicDraft, id: string)
      requires Valid() && IdUnused(topics, id)
      modifies this
      ensures Valid()
      ensures topics == old(topics) + [WithId(d, id)]
      ensures !showAddTopic
      ensures AllDatesMatch(old(topics)) && DateMatchesCompletion(WithId(d, id)) ==> AllDatesMatch(topics)
      ensures selectedYear == old(selectedYear) && notifications == old(notifications)
      ensures showNotifications == old(showNotifications)
    {
      topics := topics + [WithId(d, id)];
      showAddTopic := false;
    }

    /** The year selector. */
    method SelectYear(year: int)
      requires Valid() && 1 <= year <= 4
      modifies this
      ensures Valid() && selectedYear == year
      ensures topics == old(topics) && notifications == old(notifications)
      ensures showNotifications == old(showNotifications) && showAddTopic == old(showAddTopic)
    {
      selectedYear := year;
    }

    /** The bell button flips the notification panel. */
    method ToggleNotifications()
      requires Valid()
      modifies this
      ensures Valid() && showNotifications == !old(showNotifications)
      ensures topics == old(topics) && notifications == old(notifications)
      ensures selectedYear == old(selectedYear) && showAddTopic == old(showAddTopic)
    {
      showNotifications := !showNotifications;
    }

    /** "Add Topic" opens the panel; the modal's close callback shuts it. */
    method SetAddTopicOpen(open: bool)
      requires Valid()
      modifies this
      ensures Valid() && showAddTopic == open
      ensures topics == old(topics) && notifications == old(notifications)
      ensures selectedYear == old(selectedYear) && showNotifications == old(showNotifications)
    {
      showAddTopic := open;
    }
  }

  /** Adding the same draft twice yields two topics that differ only in their ids. */
  method AddTwice(d: TopicDraft, id1: string, id2: string, now: int) returns (added: seq<Topic>)
    requires id1 != id2 && id1 != "1" && id1 != "2" && id1 != "3" && id2 != "1" && id2 != "2" && id2 != "3"
    ensures |added| == 2 && added[0].id == id1 && added[1].id == id2
    ensures added[0].(id := id2) == added[1]
  {
    var dash := new FacultyState(now);
    dash.HandleAddTopic(d, id1);
    dash.HandleAddTopic(d, id2);
    added := dash.topics[3..];
  }

  /** On the seeded dashboard, year 1 shows the two first-year topics in order. */
  method SeededYearOne(now: int) returns (shown: seq<string>)
    ensures shown == ["1", "2"]
  {
    var dash := new FacultyState(now);
    var f := dash.FilteredTopics();
    assert SeedTopics() == [SeedTopics()[0]] + [SeedTopics()[1]] + [SeedTopics()[2]];
    FilterAppend([SeedTopics()[0]] + [SeedTopics()[1]], [SeedTopics()[2]], 1);
    FilterAppend([SeedTopics()[0]], [SeedTopics()[1]], 1);
    shown := [f[0].id, f[1].id];
  }
}
