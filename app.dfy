/** The top-level navigation controller (src/App.tsx): who is logged in, which
    page is current, and which view each page string renders. */
module App {
  import opened Types

  const PageLogin := "login"
  const PageStudentDashboard := "student-dashboard"
  const PageFacultyDashboard := "faculty-dashboard"
  const PageStudentTimetable := "student-timetable"
  const PageFacultyTimetable := "faculty-timetable"

  /** The views the switch in `renderCurrentPage` can produce. */
  datatype View = LoginView | StudentDashboardView | FacultyDashboardView | StudentTimetableView | FacultyTimetableView

  predicate KnownPage(page: string)
  {
    page == PageLogin || page == PageStudentDashboard || page == PageFacultyDashboard
    || page == PageStudentTimetable || page == PageFacultyTimetable
  }

  /** The dashboard a freshly logged-in user lands on. */
  function LandingPage(role: Role): (page: string)
    ensures page == PageStudentDashboard <==> role == Student
    ensures page == PageFacultyDashboard <==> role == Faculty
  {
    assert PageStudentDashboard[0] != PageFacultyDashboard[0];
    match role
    case Student => PageStudentDashboard
    case Faculty => PageFacultyDashboard
  }

  /** `renderCurrentPage`: a total switch; every string outside the five known
      pages falls to the login view. */
  function RenderCurrentPage(page: string): (v: View)
    ensures v == StudentDashboardView <==> page == PageStudentDashboard
    ensures v == FacultyDashboardView <==> page == PageFacultyDashboard
    ensures v == StudentTimetableView <==> page == PageStudentTimetable
    ensures v == FacultyTimetableView <==> page == PageFacultyTimetable
    ensures v == LoginView <==> (page == PageLogin || !KnownPage(page))
  {
    if page == PageStudentDashboard then StudentDashboardView
    else if page == PageFacultyDashboard then FacultyDashboardView
    else if page == PageStudentTimetable then StudentTimetableView
    else if page == PageFacultyTimetable then FacultyTimetableView
    else LoginView
  }

  /** The page string whose case renders a view. */
  function PageOf(v: View): string
  {
    match v
    case LoginView => PageLogin
    case StudentDashboardView => PageStudentDashboard
    case FacultyDashboardView => PageFacultyDashboard
    case StudentTimetableView => PageStudentTimetable
    case FacultyTimetableView => PageFacultyTimetable
  }

  /** Every view is reached by its own page string, and each known page renders a
      different view: the switch has one case per page and no two cases collide. */
  lemma RenderPageOf(v: View, page: string)
    ensures RenderCurrentPage(PageOf(v)) == v
    ensures KnownPage(page) ==> PageOf(RenderCurrentPage(page)) == page
  {
  }

  /** The page a timetable's back button returns to; only the two timetable
      views render a back button. */
  function BackTarget(page: string): (target: string)
    requires page == PageStudentTimetable || page == PageFacultyTimetable
    ensures RenderCurrentPage(target) == (if page == PageStudentTimetable then StudentDashboardView else FacultyDashboardView)
  {
    if page == PageStudentTimetable then PageStudentDashboard else PageFacultyDashboard
  }

  /** The two state fields of the `App` component. */
  class AppState {
    var currentUser: Option<User>
    var currentPage: string

    /** Nobody is logged in and the login page shows. */
    constructor ()
      ensures currentUser == None && currentPage == PageLogin
    {
      currentUser := None;
      currentPage := PageLogin;
    }

    function CurrentView(): View
      reads this
    {
      RenderCurrentPage(currentPage)
    }

    /** `handleLogin`: store the user and go to the dashboard of their role. */
    method HandleLogin(u: User)
      modifies this
      ensures currentUser == Some(u)
      ensures currentPage == LandingPage(u.role)
      ensures CurrentView() == (if u.role == Student then StudentDashboardView else FacultyDashboardView)
    {
      currentUser := Some(u);
      currentPage := LandingPage(u.role);
    }

    /** `handleLogout`: from any page, forget the user and show the login page. */
    method HandleLogout()
      modifies this
      ensures currentUser == None && currentPage == PageLogin
      ensures CurrentView() == LoginView
    {
      currentUser := None;
      currentPage := PageLogin;
    }

    /** `handlePageChange`: set the page to exactly the given string, unchecked. */
    method HandlePageChange(page: string)
      modifies this
      ensures currentPage == page
      ensures currentUser == old(currentUser)
    {
      currentPage := page;
    }

    /** The `onBack` closures handed to the two timetable views. */
    method Back()
      requires currentPage == PageStudentTimetable || currentPage == PageFacultyTimetable
      modifies this
      ensures currentPage == BackTarget(old(currentPage))
      ensures currentUser == old(currentUser)
    {
      currentPage := BackTarget(currentPage);
    }
  }

  /** Logging in and then out leaves the controller as it started. */
  method LoginLogoutRoundTrip(u: User) returns (user: Option<User>, page: string)
    ensures user == None && page == PageLogin
  {
    var app := new AppState();
    app.HandleLogin(u);
    app.HandleLogout();
    user, page := app.currentUser, app.currentPage;
  }

  /** Opening the role's timetable from its dashboard and pressing back returns
      to that dashboard with the same user. */
  method TimetableRoundTrip(u: User) returns (user: Option<User>, page: string)
    ensures user == Some(u) && page == LandingPage(u.role)
  {
    var app := new AppState();
    app.HandleLogin(u);
    var timetable := if u.role == Student then PageStudentTimetable else PageFacultyTimetable;
    app.HandlePageChange(timetable);
    app.Back();
    user, page := app.currentUser, app.currentPage;
  }
}
