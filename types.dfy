/** The domain records shared by the dashboards (src/types.ts).
    Dates are integer timestamps in milliseconds; string ids are kept as strings. */
module Types {

  datatype Option<+T> = None | Some(value: T)

  /** The two kinds of account a login can produce. */
  datatype Role = Student | Faculty

  /** `year` is present only for students. The source field `type` is called `role` here. */
  datatype User = User(id: string, name: string, role: Role, email: string, year: Option<int>)

  /** A syllabus topic; `completedDate` is meant to be present exactly when `isCompleted`. */
  datatype Topic = Topic(
    id: string,
    name: string,
    description: string,
    scheduledDate: int,
    completedDate: Option<int>,
    isCompleted: bool,
    subject: string,
    year: int)

  /** An aggregate counter of a subject's topics, read-only in this model. */
  datatype Subject = Subject(id: string, name: string, totalTopics: int, completedTopics: int, color: string)

  datatype NotificationKind = Warning | Info | Success

  datatype Notification = Notification(id: string, message: string, kind: NotificationKind, timestamp: int, read: bool)

  datatype SlotType = Lecture | Lab | Tutorial

  /** One fixed (day, time) entry of the weekly timetable. */
  datatype TimetableSlot = TimetableSlot(id: string, day: string, time: string, subject: string, room: string, kind: SlotType)

  /** The string the source stores in a slot's `type` field. */
  function SlotTypeName(k: SlotType): string
  {
    match k
    case Lecture => "lecture"
    case Lab => "lab"
    case Tutorial => "tutorial"
  }
}
