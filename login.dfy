/** The login screen (src/components/LoginPage.tsx): choose a role, fill in the
    form, submit, wait, and hand a synthesised user to the controller. The
    3-second timer is split into two explicit steps, `Submit` and `Fire`. */
module LoginPage {
  import opened Types
  import App

  /** The form buffer; `year` starts at 1 and the selector offers 1..4. */
  datatype FormData = FormData(email: string, password: string, name: string, year: int)

  const InitialForm := FormData("", "", "", 1)

  /** What the component renders. */
  datatype Screen = RoleChooser | CredentialsForm(role: Role) | Waiting(role: Role)

  /** The placeholder name used when the name field is left empty. */
  function DefaultName(role: Role): string
  {
    match role
    case Student => "John Doe"
    case Faculty => "Dr. Smith"
  }

  /** The user record synthesised when the timer fires. Only an empty name is
      replaced; a whitespace-only name is kept as typed. */
  function BuildUser(id: string, role: Role, form: FormData): (u: User)
    ensures u.id == id && u.role == role && u.email == form.email
    ensures u.name == (if form.name == "" then DefaultName(role) else form.name)
    ensures u.name != ""
    ensures u.year.Some? <==> role == Student
    ensures u.year.Some? ==> u.year.value == form.year
  {
    User(
      id,
      if form.name == "" then DefaultName(role) else form.name,
      role,
      form.email,
      if role == Student then Some(form.year) else None)
  }

  /** The three faces of the component: waiting while logging in, otherwise the
      role chooser until a role is picked, then the credentials form. */
  function ScreenOf(loginType: Option<Role>, isLoggingIn: bool): (s: Screen)
    requires isLoggingIn ==> loginType.Some?
    ensures s.Waiting? <==> isLoggingIn
    ensures s == RoleChooser <==> (!isLoggingIn && loginType == None)
    ensures !s.RoleChooser? ==> loginType == Some(s.role)
  {
    if isLoggingIn then Waiting(loginType.value)
    else if loginType.None? then RoleChooser
    else CredentialsForm(loginType.value)
  }

  /** The component's state: `loginType`, `isLoggingIn` and `formData`. */
  class LoginState {
    var loginType: Option<Role>
    var isLoggingIn: bool
    var formData: FormData

    /** A login is only ever in progress for a chosen role. */
    ghost predicate Valid()
      reads this
    {
      isLoggingIn ==> loginType.Some?
    }

    function CurrentScreen(): Screen
      reads this
      requires Valid()
    {
      ScreenOf(loginType, isLoggingIn)
    }

    constructor ()
      ensures Valid()
      ensures loginType == None && !isLoggingIn && formData == InitialForm
      ensures CurrentScreen() == RoleChooser
    {
      loginType := None;
      isLoggingIn := false;
      formData := InitialForm;
    }

    /** The "Login as Student" / "Login as Faculty" buttons of the chooser. */
    method ChooseRole(role: Role)
      requires Valid() && CurrentScreen() == RoleChooser
      modifies this
      ensures Valid() && loginType == Some(role)
      ensures isLoggingIn == old(isLoggingIn) && formData == old(formData)
      ensures CurrentScreen() == CredentialsForm(role)
    {
      loginType := Some(role);
    }

    /** The form's Back button: forget the role and show the chooser again. */
    method Back()
      requires Valid() && CurrentScreen().CredentialsForm?
      modifies this
      ensures Valid() && loginType == None
      ensures isLoggingIn == old(isLoggingIn) && formData == old(formData)
      ensures CurrentScreen() == RoleChooser
    {
      loginType := None;
    }

    /** Typing in the name field. */
    method SetName(name: string)
      requires Valid() && CurrentScreen().CredentialsForm?
      modifies this
      ensures Valid() && formData == old(formData).(name := name)
      ensures loginType == old(loginType) && isLoggingIn == old(isLoggingIn)
    {
      formData := formData.(name := name);
    }

    /** Typing in the email field. */
    method SetEmail(email: string)
      requires Valid() && CurrentScreen().CredentialsForm?
      modifies this
      ensures Valid() && formData == old(formData).(email := email)
      ensures loginType == old(loginType) && isLoggingIn == old(isLoggingIn)
    {
      formData := formData.(email := email);
    }

    /** Typing in the password field. */
    method SetPassword(password: string)
      requires Valid() && CurrentScreen().CredentialsForm?
      modifies this
      ensures Valid() && formData == old(formData).(password := password)
      ensures loginType == old(loginType) && isLoggingIn == old(isLoggingIn)
    {
      formData := formData.(password := password);
    }

    /** The year selector, shown to students, offers 1..4. */
    method SetYear(year: int)
      requires Valid() && CurrentScreen() == CredentialsForm(Student)
      requires 1 <= year <= 4
      modifies this
      ensures Valid() && formData == old(formData).(year := year)
      ensures loginType == old(loginType) && isLoggingIn == old(isLoggingIn)
    {
      formData := formData.(year := year);
    }

    /** Submitting: with no role chosen nothing happens; otherwise the waiting
        view replaces the form until the timer fires. */
    method Submit()
      requires Valid() && !isLoggingIn
      modifies this
      ensures Valid()
      ensures loginType == old(loginType) && formData == old(formData)
      ensures isLoggingIn <==> loginType.Some?
      ensures loginType.Some? ==> CurrentScreen() == Waiting(loginType.value)
    {
      if loginType.None? {
        return;
      }
      isLoggingIn := true;
    }

    /** The timer's callback: leave the waiting state, then hand the user built
        from the role and form to the controller's `handleLogin`. */
    method Fire(id: string, app: App.AppState) returns (u: User)
      requires Valid() && isLoggingIn
      modifies this, app
      ensures Valid() && !isLoggingIn
      ensures loginType == old(loginType) && formData == old(formData)
      ensures u == BuildUser(id, old(loginType).value, old(formData))
      ensures app.currentUser == Some(u)
      ensures app.currentPage == App.LandingPage(u.role)
    {
      isLoggingIn := false;
      u := BuildUser(id, loginType.value, formData);
      app.HandleLogin(u);
    }
  }

  /** A whole login as a student who leaves the name empty and picks a year:
      the controller ends up holding "John Doe" with that year, on the student
      dashboard. */
  method StudentLoginScenario(id: string, email: string, year: int) returns (user: Option<User>, page: string)
    requires 1 <= year <= 4
    ensures user == Some(User(id, "John Doe", Student, email, Some(year)))
    ensures page == App.PageStudentDashboard
  {
    var app := new App.AppState();
    var login := new LoginState();
    login.ChooseRole(Student);
    login.SetEmail(email);
    login.SetYear(year);
    login.Submit();
    var u := login.Fire(id, app);
    user, page := app.currentUser, app.currentPage;
  }

  /** Submitting before choosing a role leaves the chooser on screen and nothing
      is in progress. */
  method SubmitWithoutRole() returns (screen: Screen, inProgress: bool)
    ensures screen == RoleChooser && !inProgress
  {
    var login := new LoginState();
    login.Submit();
    screen, inProgress := login.CurrentScreen(), login.isLoggingIn;
  }
}
