/** The student's weekly timetable (src/components/StudentTimetable.tsx): a fixed
    list of slots, a first-match lookup by day and time, a colour per slot type,
    and the three-by-five grid built from the lookup. */
module StudentTimetable {
  import opened Types

  /** The fixed `timetableData`. */
  function TimetableData(): (data: seq<TimetableSlot>)
    ensures |data| == 12
  {
    [ TimetableSlot("1", "Monday", "09:00-10:00", "Mathematics", "Room 101", Lecture),
      TimetableSlot("2", "Monday", "10:00-11:00", "Physics", "Room 102", Lecture),
      TimetableSlot("3", "Monday", "11:00-12:00", "Chemistry", "Lab 201", Lab),
      TimetableSlot("4", "Tuesday", "09:00-10:00", "Biology", "Room 103", Lecture),
      TimetableSlot("5", "Tuesday", "10:00-11:00", "English", "Room 104", Lecture),
      TimetableSlot("6", "Tuesday", "11:00-12:00", "Mathematics", "Room 101", Tutorial),
      TimetableSlot("7", "Wednesday", "09:00-10:00", "Physics", "Lab 202", Lab),
      TimetableSlot("8", "Wednesday", "10:00-11:00", "Chemistry", "Room 102", Lecture),
      TimetableSlot("9", "Thursday", "09:00-10:00", "Biology", "Lab 203", Lab),
      TimetableSlot("10", "Thursday", "10:00-11:00", "English", "Room 104", Tutorial),
      TimetableSlot("11", "Friday", "09:00-10:00", "Mathematics", "Room 101", Lecture),
      TimetableSlot("12", "Friday", "10:00-11:00", "Physics", "Room 102", Tutorial) ]
  }

  /** The grid's columns. */
  const Days: seq<string> := ["Monday", "Tuesday", "Wednesday", "Thursday", "Friday"]

  /** The grid's rows. */
  const TimeSlots: seq<string> := ["09:00-10:00", "10:00-11:00", "11:00-12:00"]

  /** The predicate handed to `find`. */
  predicate Matches(s: TimetableSlot, day: string, time: string)
  {
    s.day == day && s.time == time
  }

  /** No two slots share a day and a time. */
  predicate UniqueKeys(data: seq<TimetableSlot>)
  {
    forall i, j :: 0 <= i < j < |data| ==> !(data[i].day == data[j].day && data[i].time == data[j].time)
  }

  /** The position `find` stops at: the first matching slot, if any. */
  function FindIndex(data: seq<TimetableSlot>, day: string, time: string): (r: Option<nat>)
    ensures r.None? <==> forall i :: 0 <= i < |data| ==> !Matches(data[i], day, time)
    ensures r.Some? ==> r.value < |data| && Matches(data[r.value], day, time)
    ensures r.Some? ==> forall j :: 0 <= j < r.value ==> !Matches(data[j], day, time)
  {
    if data == [] then None
    else if Matches(data[0], day, time) then Some(0)
    else
      var rest := FindIndex(data[1..], day, time);
      assert forall i :: 1 <= i < |data| ==> data[i] == data[1..][i - 1];
      match rest
      case None => None
      case Some(k) => Some(k + 1)
  }

  /** `getTimetableSlot`: the first slot on that day at that time, or nothing. */
  function GetTimetableSlot(data: seq<TimetableSlot>, day: string, time: string): (r: Option<TimetableSlot>)
    ensures r.None? <==> forall i :: 0 <= i < |data| ==> !Matches(data[i], day, time)
    ensures r.Some? ==> exists i :: (0 <= i < |data| && data[i] == r.value && Matches(data[i], day, time)
      && forall j :: 0 <= j < i ==> !Matches(data[j], day, time))
  {
    match FindIndex(data, day, time)
    case None => None
    case Some(k) => Some(data[k])
  }

  /** With unique keys, looking up a slot's own day and time returns that slot. */
  lemma LookupFindsSlot(data: seq<TimetableSlot>, i: nat)
    requires UniqueKeys(data) && i < |data|
    ensures GetTimetableSlot(data, data[i].day, data[i].time) == Some(data[i])
  {
    var k := FindIndex(data, data[i].day, data[i].time);
    assert k.Some?;
    assert !(k.value < i) && !(i < k.value);
  }

  /** The seeded timetable never holds two slots for the same hour. */
  lemma SeededKeysUnique()
    ensures UniqueKeys(TimetableData())
  {
    assert "Tuesday"[1] != "Thursday"[1];
    assert "10:00-11:00"[1] != "11:00-12:00"[1];
  }

  /** `getTypeColor`: three fixed classes and a grey default for any other string. */
  function TypeColor(kind: string): (c: string)
    ensures c == "bg-gray-100 border-gray-300 text-gray-800" <==>
      kind != "lecture" && kind != "lab" && kind != "tutorial"
  {
    assert "bg-blue-100 border-blue-300 text-blue-800"[3] != "bg-gray-100 border-gray-300 text-gray-800"[3];
    assert "bg-green-100 border-green-300 text-green-800"[5] != "bg-gray-100 border-gray-300 text-gray-800"[5];
    assert "bg-purple-100 border-purple-300 text-purple-800"[3] != "bg-gray-100 border-gray-300 text-gray-800"[3];
    if kind == "lecture" then "bg-blue-100 border-blue-300 text-blue-800"
    else if kind == "lab" then "bg-green-100 border-green-300 text-green-800"
    else if kind == "tutorial" then "bg-purple-100 border-purple-300 text-purple-800"
    else "bg-gray-100 border-gray-300 text-gray-800"
  }

  /** Every slot type has its own colour and none of them falls back to grey. */
  lemma TypeColorsDistinct(a: SlotType, b: SlotType)
    ensures a != b ==> TypeColor(SlotTypeName(a)) != TypeColor(SlotTypeName(b))
    ensures TypeColor(SlotTypeName(a)) != "bg-gray-100 border-gray-300 text-gray-800"
  {
    assert "lecture"[1] != "lab"[1];
  }

  /** One table cell: "Free", or the slot's subject, room, type label and colour. */
  datatype Cell = Free | Occupied(subject: string, room: string, typeLabel: string, color: string)

  function CellFor(slot: Option<TimetableSlot>): (c: Cell)
    ensures c.Free? <==> slot.None?
  {
    match slot
    case None => Free
    case Some(s) => Occupied(s.subject, s.room, SlotTypeName(s.kind), TypeColor(SlotTypeName(s.kind)))
  }

  /** The table body: one row per time slot, one cell per day, each cell showing
      what the lookup finds for that day and time. */
  function Grid(data: seq<TimetableSlot>): (g: seq<seq<Cell>>)
    ensures |g| == |TimeSlots|
    ensures forall r :: 0 <= r < |g| ==> |g[r]| == |Days|
    ensures forall r, c :: 0 <= r < |TimeSlots| && 0 <= c < |Days| ==>
      g[r][c] == CellFor(GetTimetableSlot(data, Days[c], TimeSlots[r]))
  {
    seq(|TimeSlots|, r requires 0 <= r < |TimeSlots| =>
      seq(|Days|, c requires 0 <= c < |Days| => CellFor(GetTimetableSlot(data, Days[c], TimeSlots[r]))))
  }

  /** With unique keys, every slot whose day and time are on the grid is shown,
      with its subject, room, type and colour, in its own cell. */
  lemma GridShowsEverySlot(data: seq<TimetableSlot>, i: nat, r: nat, c: nat)
    requires UniqueKeys(data) && i < |data| && r < |TimeSlots| && c < |Days|
    requires data[i].day == Days[c] && data[i].time == TimeSlots[r]
    ensures Grid(data)[r][c] == Occupied(data[i].subject, data[i].room,
      SlotTypeName(data[i].kind), TypeColor(SlotTypeName(data[i].kind)))
  {
    LookupFindsSlot(data, i);
  }

  /** Every seeded slot falls on a weekday column and a time row of the grid, so
      all twelve are shown. */
  lemma SeededSlotsOnGrid()
    ensures forall i :: 0 <= i < |TimetableData()| ==>
      TimetableData()[i].day in Days && TimetableData()[i].time in TimeSlots
  {
  }

  /** Monday's first hour is the mathematics lecture in Room 101, drawn in blue. */
  lemma SeededFirstCell()
    ensures Grid(TimetableData())[0][0] ==
      Occupied("Mathematics", "Room 101", "lecture", "bg-blue-100 border-blue-300 text-blue-800")
  {
    SeededKeysUnique();
    GridShowsEverySlot(TimetableData(), 0, 0, 0);
  }

  /** Friday's last hour has no slot, so its cell reads "Free". */
  lemma SeededLastCellFree()
    ensures Grid(TimetableData())[2][4] == Free
  {
    var data := TimetableData();
    assert forall i :: 0 <= i < |data| ==> !Matches(data[i], "Friday", "11:00-12:00") by {
      assert "Friday"[0] != "Monday"[0] && "Friday"[0] != "Tuesday"[0];
      assert "Friday"[0] != "Wednesday"[0] && "Friday"[0] != "Thursday"[0];
      assert "11:00-12:00"[1] != "09:00-10:00"[1] && "11:00-12:00"[1] != "10:00-11:00"[1];
    }
  }
}
