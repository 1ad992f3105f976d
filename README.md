# Syllabus tracker — a verified model of its logic layer

Syllabus Tracker is a client-only React application. Students and faculty log in
with a simulated login. Faculty mark syllabus topics complete on a per-year
timeline and add new ones. Students see their progress per subject, a weekly
timetable and a shared checklist. Under the markup sits a small, synchronous
logic layer. This project models that layer in Dafny and proves what it promises:

- `App` (`app.dfy`): the navigation controller. It holds the current user and the
  current page, and a total switch maps each page string to a view.
- `LoginPage` (`login.dfy`): the login state machine. Choose a role, fill the form,
  submit, wait, and build the `User` that is handed to the controller.
- `FacultyDashboard` (`faculty_dashboard.dfy`): the topic store. It covers toggle
  with completion dates, append with a fresh id, the year filter, the unread
  count and the two panel flags.
- `CollaborativeChecklist` (`checklist.dfy`): the checklist store. It covers
  toggle with attribution, an add that ignores blank input and trims, and the
  completion count and percentage.
- `TimelineComponent` (`timeline.dfy`): the four-way topic status classifier,
  its colour and icon maps, and one timeline entry per topic.
- `TopicProgressChart` (`topic_progress_chart.dfy`): the distinct subjects in
  first-occurrence order, the per-subject counts and percentages, the two
  stacked series, and the empty-list message.
- `StudentDashboard` (`student_dashboard.dfy`): the topic sums, the overall
  progress figure, the unread badge and the panel flag.
- `ProgressPieChart` (`progress_pie_chart.dfy`): the per-subject slices, the
  tooltip's remaining count, and the overall figure.
- `StudentTimetable` (`student_timetable.dfy`): the first-match slot lookup over
  the fixed table, the 3 × 5 grid and the slot-type colour map.
- `Types` (`types.dfy`) holds the shared records of `src/types.ts`.
- `Aggregates` (`aggregates.dfy`) holds the two formulas several components share:
  `Math.round` of a percentage and the unread count.

Conventions:

- Dates are integer millisecond timestamps, and "now" is a parameter.
- The calendar day of a timestamp is `t / 86400000`, that is, UTC days.
- Random ids are fresh-id parameters. A precondition says the id is unused, and
  the stores keep their ids unique as part of their invariant.
- `Math.round(100 * c / t)` is exact half-up rounding, `(200c + t) div (2t)`.
- Stateful components are classes whose fields the methods reassign.
- The `map`/`filter`/`reduce` expressions are recursive functions or sequence
  comprehensions with pointwise contracts.

## Model

| member | source | states |
|---|---|---|
| Aggregates.RoundPercent | src/components/StudentDashboard.tsx:55 | the result is the integer nearest to 100·part/whole with halves rounded up: 2·whole·r ≤ 200·part + whole < 2·whole·(r+1) |
| Aggregates.PercentInRange | src/components/CollaborativeChecklist.tsx:64-65 | a part between 0 and the whole gives a percentage in 0..100 |
| Aggregates.PercentEndpoints | src/components/ProgressPieChart.tsx:18 | all of the whole rounds to exactly 100 and none of it to exactly 0 |
| Aggregates.PercentMonotonic | src/components/TopicProgressChart.tsx:22 | more completed work never shows a smaller percentage of the same whole |
| Aggregates.UnreadCount | src/components/FacultyDashboard.tsx:72 | the count is at most the list length, is 0 iff everything is read, and equals the length iff nothing is read |
| Aggregates.BadgeShown | src/components/StudentDashboard.tsx:84-88 | the red badge shows iff some notification is unread |
| Aggregates.UnreadCountAppend | src/components/StudentDashboard.tsx:57 | the unread count of a concatenation is the sum of the parts' counts |
| App.LandingPage | src/App.tsx:15 | a student lands on 'student-dashboard' and faculty on 'faculty-dashboard', both directions |
| App.RenderCurrentPage | src/App.tsx:27-63 | each of the four non-login pages renders its own view iff the page is that string; the login view renders iff the page is 'login' or any unknown string |
| App.RenderPageOf | src/App.tsx:28-62 | every view is reached from its page string, and a known page string is recovered from its view, so no two cases collide |
| App.BackTarget | src/App.tsx:47-59 | back from the student timetable renders the student dashboard, and back from the faculty timetable renders the faculty dashboard |
| App.AppState.constructor | src/App.tsx:10-11 | the controller starts with no user on the 'login' page |
| App.AppState.HandleLogin | src/App.tsx:13-16 | stores the user and moves to the dashboard of the user's role |
| App.AppState.HandleLogout | src/App.tsx:18-21 | from any page, clears the user and shows the login view |
| App.AppState.HandlePageChange | src/App.tsx:23-25 | sets the page to exactly the given string, unchecked, and keeps the user |
| App.AppState.Back | src/App.tsx:47-59 | the timetable back buttons go to the matching dashboard and keep the user |
| App.LoginLogoutRoundTrip | src/App.tsx:10-21 | logging in and then out returns the controller to its initial state |
| App.TimetableRoundTrip | src/App.tsx:13-59 | opening the role's timetable after login and pressing back returns to the landing dashboard with the same user |
| LoginPage.BuildUser | src/components/LoginPage.tsx:27-33 | the id, role and email are copied; an empty name becomes 'John Doe' or 'Dr. Smith' by role, and any other name is kept; the user has a year iff a student, and it is the form's year |
| LoginPage.ScreenOf | src/components/LoginPage.tsx:40-76 | the waiting view shows iff a login is in progress; otherwise the role chooser shows iff no role is chosen, and the credentials form shows for the chosen role |
| LoginPage.LoginState.constructor | src/components/LoginPage.tsx:10-17 | no role, not logging in, empty form with year 1, so the role chooser shows |
| LoginPage.LoginState.ChooseRole | src/components/LoginPage.tsx:61-70 | picking a role from the chooser shows the credentials form for that role and keeps the form |
| LoginPage.LoginState.Back | src/components/LoginPage.tsx:139-145 | the form's Back button forgets the role and shows the chooser again |
| LoginPage.LoginState.SetName | src/components/LoginPage.tsx:85 | typing a name replaces the name field only |
| LoginPage.LoginState.SetEmail | src/components/LoginPage.tsx:99 | typing an email replaces the email field only |
| LoginPage.LoginState.SetYear | src/components/LoginPage.tsx:106-120 | the student-only year selector sets a year in 1..4 and nothing else |
| LoginPage.LoginState.SetPassword | src/components/LoginPage.tsx:131 | typing a password replaces the password field only |
| LoginPage.LoginState.Submit | src/components/LoginPage.tsx:19-23 | with no role nothing changes; with a role the login is in progress and the waiting view shows |
| LoginPage.LoginState.Fire | src/components/LoginPage.tsx:26-37 | the deferred step clears the in-progress flag and hands the built user to the controller, which lands on that role's dashboard |
| LoginPage.StudentLoginScenario | src/components/LoginPage.tsx:19-38 | a student who leaves the name empty ends up as 'John Doe' with the chosen year, on the student dashboard |
| LoginPage.SubmitWithoutRole | src/components/LoginPage.tsx:19-21 | submitting before choosing a role leaves the chooser on screen and nothing in progress |
| FacultyDashboard.ToggleTopic | src/components/FacultyDashboard.tsx:78-82 | completion flips; the completion date is now when the topic becomes completed and absent otherwise; every other field is kept |
| FacultyDashboard.ToggleTopics | src/components/FacultyDashboard.tsx:74-86 | same length and order; every topic with the id is toggled and every other topic is unchanged |
| FacultyDashboard.TogglePreservesDates | src/components/FacultyDashboard.tsx:80-81 | toggling keeps "completion date present iff completed" |
| FacultyDashboard.TogglePreservesIds | src/components/FacultyDashboard.tsx:74-86 | toggling keeps every id in place, so unique ids stay unique |
| FacultyDashboard.ToggleTwice | src/components/FacultyDashboard.tsx:80-81 | toggling one id twice restores every completion flag; a toggled topic comes back unchanged iff it was open or its date equals the second toggle's time; other topics are untouched |
| FacultyDashboard.FilterByYear | src/components/FacultyDashboard.tsx:71 | the result is no longer than the input, holds only topics of that year, and holds exactly the input's topics of that year; a single topic is kept iff it is of that year |
| FacultyDashboard.FilterAppend | src/components/FacultyDashboard.tsx:71 | filtering distributes over concatenation; with the one-topic case it fixes the result as the year's topics in their original order and multiplicity |
| FacultyDashboard.WithId | src/components/FacultyDashboard.tsx:89-92 | the new topic carries the given id and every field of the draft |
| FacultyDashboard.ToggleUnknownId | src/components/FacultyDashboard.tsx:74-86 | toggling an id no topic has changes nothing |
| FacultyDashboard.ToggleAfterAdd | src/components/FacultyDashboard.tsx:74-95 | after an append under a fresh id, toggling that id changes only the new topic, and toggling any older id leaves the new topic alone |
| FacultyDashboard.TimelineButtonTogglesItsTopic | src/components/FacultyDashboard.tsx:201-203 | with unique ids, the toggle button of any entry of the filtered timeline changes exactly one topic of the full list, the one it shows |
| FacultyDashboard.SeedTopics | src/components/FacultyDashboard.tsx:23-52 | the three seeded topics satisfy the date rule and have unique ids |
| FacultyDashboard.SeedNotifications | src/components/FacultyDashboard.tsx:54-69 | two seeded notifications, one of them unread |
| FacultyDashboard.FacultyState.constructor | src/components/FacultyDashboard.tsx:19-69 | year 1, both panels closed, the seeded topics and notifications |
| FacultyDashboard.FacultyState.HandleTopicToggle | src/components/FacultyDashboard.tsx:74-86 | the topics become their toggle, the date rule and unique ids are kept, and nothing else changes |
| FacultyDashboard.FacultyState.HandleAddTopic | src/components/FacultyDashboard.tsx:88-95 | exactly one topic with the draft's fields and the fresh id is appended, the add panel closes, and ids stay unique |
| FacultyDashboard.FacultyState.SelectYear | src/components/FacultyDashboard.tsx:183-189 | the selector sets a year in 1..4 and nothing else |
| FacultyDashboard.FacultyState.ToggleNotifications | src/components/FacultyDashboard.tsx:131 | the bell flips the notification panel and nothing else |
| FacultyDashboard.FacultyState.SetAddTopicOpen | src/components/FacultyDashboard.tsx:99-117 | "Add Topic" opens the panel and the modal's close callback shuts it; nothing else changes |
| FacultyDashboard.AddTwice | src/components/FacultyDashboard.tsx:88-95 | adding one draft twice yields two topics that differ only in their ids |
| FacultyDashboard.SeededYearOne | src/components/FacultyDashboard.tsx:71 | on the seeded dashboard, year 1 shows topics 1 and 2, in that order |
| CollaborativeChecklist.ToggleEntry | src/components/CollaborativeChecklist.tsx:40-47 | completion flips; a completed item is attributed to 'Current User' at now, and an open one carries neither attribution nor timestamp; id and text are kept |
| CollaborativeChecklist.ToggleItems | src/components/CollaborativeChecklist.tsx:37-50 | same length and order; matching items are toggled and all others are unchanged |
| CollaborativeChecklist.ToggleKeepsInvariant | src/components/CollaborativeChecklist.tsx:44-45 | toggling keeps "attributed iff completed" and unique ids |
| CollaborativeChecklist.ToggleEntryTwice | src/components/CollaborativeChecklist.tsx:42-45 | toggling twice restores completion; an open item comes back unchanged, and a completed one comes back attributed to the current user at the second time |
| CollaborativeChecklist.LeadingSpace | src/components/CollaborativeChecklist.tsx:53 | the count covers whitespace only and stops at the first non-whitespace character |
| CollaborativeChecklist.TrailingSpace | src/components/CollaborativeChecklist.tsx:53 | the count covers whitespace only and stops at the last non-whitespace character |
| CollaborativeChecklist.Trim | src/components/CollaborativeChecklist.tsx:53-56 | the trimmed text is a contiguous piece of the input, everything cut away is whitespace, it neither starts nor ends with whitespace, and it is empty iff the input is all whitespace |
| CollaborativeChecklist.TrimIdempotent | src/components/CollaborativeChecklist.tsx:53-56 | trimming twice is the same as trimming once |
| CollaborativeChecklist.TrimPadded | src/components/CollaborativeChecklist.tsx:56 | a padded entry loses its leading and trailing blanks |
| CollaborativeChecklist.CompletedCount | src/components/CollaborativeChecklist.tsx:64 | the count is at most the length, equals it iff all items are completed, and is 0 iff none is |
| CollaborativeChecklist.CompletedCountAppend | src/components/CollaborativeChecklist.tsx:64 | the completed count of a concatenation is the sum of the parts' counts, so with the one-item case fixed it counts exactly the completed items |
| CollaborativeChecklist.ProgressPercent | src/components/CollaborativeChecklist.tsx:64-65 | the displayed figure is the completed share of the items rounded half up: 2·n·p ≤ 200·completed + n < 2·n·(p+1); it lies in 0..100, is 100 when all items are done and 0 when none is |
| CollaborativeChecklist.SeedItems | src/components/CollaborativeChecklist.tsx:13-33 | three seeded items, attributed iff completed, with unique ids |
| CollaborativeChecklist.ChecklistState.constructor | src/components/CollaborativeChecklist.tsx:13-35 | the seeded items and an empty text box |
| CollaborativeChecklist.ChecklistState.SetNewItem | src/components/CollaborativeChecklist.tsx:98 | typing replaces the text box and leaves the items |
| CollaborativeChecklist.ChecklistState.ToggleItem | src/components/CollaborativeChecklist.tsx:37-50 | the items become their toggle and the invariant (at least three items, attributed iff completed, unique ids) is kept |
| CollaborativeChecklist.ChecklistState.AddItem | src/components/CollaborativeChecklist.tsx:52-62 | blank input changes nothing; other input appends one open, unattributed item holding the trimmed text and clears the box; the invariant is kept |
| CollaborativeChecklist.AddTrimmedScenario | src/components/CollaborativeChecklist.tsx:52-62 | adding "  Read chapter 6 " to a fresh checklist appends "Read chapter 6" as the fourth item and clears the box |
| TimelineComponent.TopicStatus | src/components/TimelineComponent.tsx:12-17 | completed iff the topic is completed; otherwise today iff scheduled on today's day; otherwise overdue iff scheduled before now; otherwise upcoming |
| TimelineComponent.DayMonotonic | src/components/TimelineComponent.tsx:14-15 | a later timestamp never falls on an earlier day |
| TimelineComponent.StatusDays | src/components/TimelineComponent.tsx:14-15 | an upcoming topic is on a later day than today, and an overdue one on an earlier day |
| TimelineComponent.StatusAdvancesWithTime | src/components/TimelineComponent.tsx:12-17 | for an unchanged topic the status only moves forward along upcoming, today, overdue as time passes |
| TimelineComponent.StatusStylesDistinct | src/components/TimelineComponent.tsx:19-43 | the four statuses get four different colours and four different icons, and upcoming uses the grey default |
| TimelineComponent.StatusColor | src/components/TimelineComponent.tsx:32-43 | the grey border is returned iff the status is none of 'completed', 'today' and 'overdue' |
| TimelineComponent.StatusIcon | src/components/TimelineComponent.tsx:19-30 | the check icon iff 'completed', the alert icon iff 'overdue', and the grey clock iff the status is none of the three known ones |
| TimelineComponent.EntryFor | src/components/TimelineComponent.tsx:49-81 | a row carries its topic's status drawn in that status's colour and icon, a connector iff it is not the last row, a button that toggles its own topic, and the label 'Completed' iff the topic is completed |
| TimelineComponent.Timeline | src/components/TimelineComponent.tsx:48-81 | one entry per topic in order, each with its topic's status and that status's colour and icon; every entry but the last draws a connector; each button toggles its own topic and reads 'Completed' iff the topic is completed |
| TopicProgressChart.FirstIndex | src/components/TopicProgressChart.tsx:13 | the position holds the value and no earlier position does |
| TopicProgressChart.FirstIndexPrefix | src/components/TopicProgressChart.tsx:13 | extending a list does not move the first occurrence of what it already holds |
| TopicProgressChart.Dedup | src/components/TopicProgressChart.tsx:13 | no duplicates, exactly the input's values, in first-occurrence order |
| TopicProgressChart.Subjects | src/components/TopicProgressChart.tsx:13 | each subject carried by some topic appears exactly once, nothing else appears, and subjects are ordered by the first topic carrying them |
| TopicProgressChart.SubjectColumn | src/components/TopicProgressChart.tsx:13 | the subject of every topic, in list order |
| TopicProgressChart.SubjectTotal | src/components/TopicProgressChart.tsx:16-20 | at most the list length, and positive iff some topic has the subject |
| TopicProgressChart.SubjectCompleted | src/components/TopicProgressChart.tsx:17 | never more than the subject's total, and positive iff some topic of the subject is completed |
| TopicProgressChart.SubjectCountsAppend | src/components/TopicProgressChart.tsx:16-17 | both counts of a concatenation are the sums of the parts' counts; with the one-topic cases fixed by the two contracts above, they count exactly the subject's topics and its completed topics |
| TopicProgressChart.RowFor | src/components/TopicProgressChart.tsx:15-23 | a row holds the subject, its total and completed counts, and a percentage in 0..100 that is 0 for an empty subject and the rounded share otherwise |
| TopicProgressChart.ChartData | src/components/TopicProgressChart.tsx:15-24 | one row per distinct subject, in the same order, and no row has a zero total |
| TopicProgressChart.TopicChart | src/components/TopicProgressChart.tsx:26-100 | the empty list gives the message; otherwise the labels are the distinct subjects, and the completed and remaining series and the tooltips have one entry each, with remaining ≥ 0, completed + remaining = total > 0 and a tooltip in 0..100 |
| TopicProgressChart.EveryTopicHasOneBar | src/components/TopicProgressChart.tsx:13-27 | every topic's subject has exactly one bar |
| StudentDashboard.TotalTopics | src/components/StudentDashboard.tsx:53 | no subjects sum to 0 and one subject sums to its own topic count; with TotalsAppend this is the sum over all subjects |
| StudentDashboard.TotalCompleted | src/components/StudentDashboard.tsx:54 | no subjects sum to 0 and one subject sums to its own completed count; with TotalsAppend this is the sum over all subjects |
| StudentDashboard.TotalsBounded | src/components/StudentDashboard.tsx:53-54 | over well-formed subjects the completed sum lies between 0 and the topic sum |
| StudentDashboard.TotalsAppend | src/components/StudentDashboard.tsx:53-54 | both sums add up piece by piece |
| StudentDashboard.OverallProgress | src/components/StudentDashboard.tsx:55 | the figure is the completed share of all topics rounded half up, defined when there are topics |
| StudentDashboard.OverallProgressInRange | src/components/StudentDashboard.tsx:55 | over well-formed subjects the overall figure lies in 0..100 |
| StudentDashboard.SeedSubjects | src/components/StudentDashboard.tsx:19-25 | five well-formed seeded subjects |
| StudentDashboard.SeededFigures | src/components/StudentDashboard.tsx:19-57 | the seeded dashboard shows 62 of 91 topics, 68 %, and two unread notifications |
| StudentDashboard.TwoSubjectExample | src/components/StudentDashboard.tsx:53-55 | 27 of 38 topics shows 71 % |
| StudentDashboard.StudentState.constructor | src/components/StudentDashboard.tsx:19-51 | the seeded subjects and notifications with the panel closed |
| StudentDashboard.StudentState.ToggleNotifications | src/components/StudentDashboard.tsx:79 | the bell flips the panel; subjects and notifications never change |
| ProgressPieChart.SubjectPercent | src/components/ProgressPieChart.tsx:18 | the slice is the completed share of the subject rounded half up: 2·total·p ≤ 200·completed + total < 2·total·(p+1); a complete subject shows 100, an untouched one 0, and a well-formed one a value in 0..100 |
| ProgressPieChart.Remaining | src/components/ProgressPieChart.tsx:49 | remaining plus completed is the subject's total, and it is between 0 and the total for a well-formed subject |
| ProgressPieChart.TopicsOverall | src/components/ProgressPieChart.tsx:66 | if every subject has topics, the sum of topics is positive |
| ProgressPieChart.PieChart | src/components/ProgressPieChart.tsx:13-68 | one label, slice and remaining count per subject in input order; the overall figure and its sums are the student dashboard's own, and everything lies in 0..100 for well-formed subjects |
| StudentTimetable.TimetableData | src/components/StudentTimetable.tsx:11-24 | the fixed table has twelve slots |
| StudentTimetable.FindIndex | src/components/StudentTimetable.tsx:30 | no position iff no slot matches; otherwise a matching position with no match before it |
| StudentTimetable.GetTimetableSlot | src/components/StudentTimetable.tsx:29-31 | nothing iff no slot matches the day and time; otherwise the first matching slot in list order |
| StudentTimetable.LookupFindsSlot | src/components/StudentTimetable.tsx:29-31 | with unique (day, time) keys, looking up a slot's own day and time returns that slot |
| StudentTimetable.SeededKeysUnique | src/components/StudentTimetable.tsx:11-24 | the fixed table has at most one slot per day and time |
| StudentTimetable.TypeColor | src/components/StudentTimetable.tsx:33-44 | the grey classes are returned iff the type is none of 'lecture', 'lab' and 'tutorial' |
| StudentTimetable.TypeColorsDistinct | src/components/StudentTimetable.tsx:33-44 | lecture, lab and tutorial get three different colours, none of them the grey default |
| StudentTimetable.CellFor | src/components/StudentTimetable.tsx:99-113 | a cell reads "Free" iff the lookup found nothing |
| StudentTimetable.Grid | src/components/StudentTimetable.tsx:90-116 | three time rows of five day cells, each showing the lookup for its day and time |
| StudentTimetable.GridShowsEverySlot | src/components/StudentTimetable.tsx:90-116 | with unique keys, every slot on a grid day and time is shown in its own cell with its subject, room, type and colour |
| StudentTimetable.SeededSlotsOnGrid | src/components/StudentTimetable.tsx:11-27 | every seeded slot falls on a weekday column and a time row |
| StudentTimetable.SeededFirstCell | src/components/StudentTimetable.tsx:12-108 | Monday 09:00-10:00 shows the Mathematics lecture in Room 101 in blue |
| StudentTimetable.SeededLastCellFree | src/components/StudentTimetable.tsx:11-113 | Friday 11:00-12:00 has no slot and its cell reads "Free" |

## Left out

- Presentation is not modelled: JSX markup, Tailwind classes, lucide icons, the
  walking animation in `src/components/WalkingAnimation.tsx`, and the chart.js
  options and dataset styling. `src/components/SubjectBarChart.tsx` is a thin
  chart.js wrapper and is not part of this model.
- LoginPage.LoginState.Submit and LoginPage.LoginState.Fire split the 3000 ms
  timer into two explicit steps. The delay and the missing cancellation are not
  modelled.
- Random ids (`Math.random().toString(36)`) become a fresh-id parameter with a
  precondition that no existing record uses it. Collisions are not modelled.
- Dates are integer millisecond timestamps, and "now" is a parameter. The date
  library's `isToday` becomes equality of UTC day numbers, and `isPast` becomes
  `<` against now. Local time zones are not modelled. `format` and the
  `toLocale*` displays are not modelled.
- Aggregates.RoundPercent: percentages are computed exactly. The source computes
  them in double precision before `Math.round`, so an exact .5 tie can round the
  other way there. For example, `29 / 200 * 100` evaluates just below 14.5.
- StudentDashboard.OverallProgress, ProgressPieChart.SubjectPercent,
  ProgressPieChart.PieChart and CollaborativeChecklist.ProgressPercent: a zero
  denominator yields NaN in the source. Here a non-zero denominator is a
  precondition instead.
- CollaborativeChecklist.IsSpace: the trim removes ASCII whitespace only (space,
  tab, line feed, carriage return, vertical tab, form feed). The Unicode
  whitespace set of `String.prototype.trim` is not modelled.
- LoginPage.LoginState.Submit: the browser's `required` validation on the name,
  email and password fields (src/components/LoginPage.tsx:88, 102, 134) is not
  modelled, so a submit with an empty field goes through. The component's own
  code handles an empty name with the default name, and
  LoginPage.StudentLoginScenario follows that path, which a browser that
  enforces `required` would block.
- LoginPage.LoginState.SetPassword: the password is stored but never read. The
  model keeps it only as a form field.
- The add-topic modal and `FacultyTimetable` are not part of this model. A
  faculty timetable page still renders its view and has a back button.
- The faculty dashboard uses the collaborative checklist without importing it.
  The checklist is modelled as its own component.
- React's state batching and re-render scheduling are not modelled. Each
  handler is one atomic update of its component's state.
- FacultyDashboard.FilterByYear: its own contract states the length bound, the
  year of every kept topic, membership and the one-topic case. The original
  order and multiplicity follow only together with FacultyDashboard.FilterAppend.
