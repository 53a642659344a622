/**
  Which screen the application shows (`AppContent` in src/app/App.tsx): the
  landing page until "Get Started" is pressed, the login page while nobody is
  signed in, and otherwise the dashboard for the signed-in user's role.
  `hasStarted` is the component's own flag; it survives a sign-out.
*/
module App {
  import opened Seqs
  import opened Types
  import opened Store

  datatype Screen = Landing | LoginPage | LandlordDashboard | TenantDashboard

  predicate IsDashboard(screen: Screen)
  {
    screen == LandlordDashboard || screen == TenantDashboard
  }

  /** `AppContent`'s choice of screen. */
  function SelectScreen(hasStarted: bool, currentUser: Option<User>): (r: Screen)
    ensures IsDashboard(r) <==> currentUser.Some?
    ensures r == Landing <==> !hasStarted && currentUser.None?
    ensures r == LoginPage <==> hasStarted && currentUser.None?
    ensures r == LandlordDashboard <==> currentUser.Some? && currentUser.value.role == Landlord
    ensures r == TenantDashboard <==> currentUser.Some? && currentUser.value.role == Tenant
  {
    match currentUser
    case None => if hasStarted then LoginPage else Landing
    case Some(user) =>
      match user.role
      case Landlord => LandlordDashboard
      case Tenant => TenantDashboard
  }

  /**
    A successful sign-in opens the dashboard for the role of the first user
    with those credentials, whether or not the landing page was passed; a
    failed one leaves the screen as it was.
  */
  lemma LoginOpensDashboard(s: State, email: string, password: string, hasStarted: bool)
    ensures var (ok, s') := Login(s, email, password);
            ok ==> exists i :: 0 <= i < |s.users| && HasCredentials(s.users[i], email, password)
                               && (forall j :: 0 <= j < i ==> !HasCredentials(s.users[j], email, password))
                               && SelectScreen(hasStarted, s'.currentUser)
                                  == (if s.users[i].role == Landlord then LandlordDashboard else TenantDashboard)
    ensures var (ok, s') := Login(s, email, password);
            !ok ==> SelectScreen(hasStarted, s'.currentUser) == SelectScreen(hasStarted, s.currentUser)
  {
    var (ok, s') := Login(s, email, password);
    if ok {
      var i :| 0 <= i < |s.users| && s'.currentUser == Some(s.users[i])
               && HasCredentials(s.users[i], email, password)
               && forall j :: 0 <= j < i ==> !HasCredentials(s.users[j], email, password);
      assert SelectScreen(hasStarted, s'.currentUser)
             == (if s.users[i].role == Landlord then LandlordDashboard else TenantDashboard);
    }
  }

  /**
    Signing out never leaves a dashboard on screen: it returns to the login
    page once "Get Started" was pressed, and to the landing page when the
    session was restored without it.
  */
  lemma LogoutLeavesDashboard(s: State, hasStarted: bool)
    ensures !IsDashboard(SelectScreen(hasStarted, Logout(s).currentUser))
    ensures SelectScreen(hasStarted, Logout(s).currentUser) == (if hasStarted then LoginPage else Landing)
  {
  }
}
