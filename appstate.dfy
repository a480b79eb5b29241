/** The application's session and navigation state: who is logged in, which
    view is selected, and the counter that tells the login screen to reload
    its users. The four actions are specified as transitions of a session
    value, and the hook that holds the state applies them in place. */
module AppState {
  import opened Common
  import opened Records
  import opened Storage
  import StaffData

  /** The selectable views: 'login', 'dashboard' and 'staff-manager'. */
  datatype View = LoginView | DashboardView | StaffManagerView

  /** The state the hook holds (the clock it also keeps is not modelled). */
  datatype Session = Session(
    isLoggedIn: bool,
    currentUser: Option<StaffMember>,
    currentView: View,
    refreshTrigger: nat)

  /** What renderCurrentView returns: the screen and the data it is given. */
  datatype Screen =
    | LoginScreen(refreshTrigger: nat)
    | StaffManagerScreen
    | DashboardScreen(currentUser: Option<StaffMember>)

  datatype Action = LogIn(user: StaffMember) | LogOut | ShowStaffManager | BackToDashboard

  /** A session is logged in exactly when it has a user, and a logged-in
      session never has the login view selected. */
  predicate Consistent(s: Session) {
    (s.isLoggedIn <==> s.currentUser.Some?) && (s.isLoggedIn ==> s.currentView != LoginView)
  }

  /** The state after mounting: the login view, nobody logged in. */
  function Initial(): (s: Session)
    ensures Consistent(s) && !s.isLoggedIn && s.currentView == LoginView && s.refreshTrigger == 0
  {
    Session(false, None, LoginView, 0)
  }

  /** The effect of one action on the session. */
  function Step(s: Session, a: Action): Session {
    match a
    case LogIn(user) => s.(currentUser := Some(user), isLoggedIn := true, currentView := DashboardView)
    case LogOut => Session(false, None, LoginView, s.refreshTrigger + 1)
    case ShowStaffManager => s.(currentView := StaffManagerView)
    case BackToDashboard => s.(currentView := DashboardView, refreshTrigger := s.refreshTrigger + 1)
  }

  /** The actions applied one after the other. */
  function Run(s: Session, actions: seq<Action>): Session
    decreases |actions|
  {
    if actions == [] then s else Run(Step(s, actions[0]), actions[1..])
  }

  /** renderCurrentView: the login screen whenever nobody is logged in,
      whatever the selected view; otherwise the staff manager exactly when it
      is selected, and the dashboard for the current user in every other case. */
  function RenderCurrentView(s: Session): (screen: Screen)
    ensures screen.LoginScreen? <==> !s.isLoggedIn
    ensures screen.LoginScreen? ==> screen.refreshTrigger == s.refreshTrigger
    ensures screen.StaffManagerScreen? <==> s.isLoggedIn && s.currentView == StaffManagerView
    ensures screen.DashboardScreen? ==> screen.currentUser == s.currentUser
  {
    if !s.isLoggedIn then LoginScreen(s.refreshTrigger)
    else if s.currentView == StaffManagerView then StaffManagerScreen
    else DashboardScreen(s.currentUser)
  }

  // ------------------------------------------------------------- properties

  /** Every action keeps a session consistent. */
  lemma StepKeepsConsistent(s: Session, a: Action)
    requires Consistent(s)
    ensures Consistent(Step(s, a))
  {
  }

  /** Every state reached from the initial one is consistent. */
  lemma {:induction false} RunKeepsConsistent(s: Session, actions: seq<Action>)
    requires Consistent(s)
    ensures Consistent(Run(s, actions))
    decreases |actions|
  {
    if actions != [] {
      StepKeepsConsistent(s, actions[0]);
      RunKeepsConsistent(Step(s, actions[0]), actions[1..]);
    }
  }

  /** In a consistent session the dashboard is always shown with a user. */
  lemma DashboardHasUser(s: Session)
    requires Consistent(s) && RenderCurrentView(s).DashboardScreen?
    ensures RenderCurrentView(s).currentUser.Some?
  {
  }

  /** The number of actions that bump the refresh counter. */
  function Refreshes(actions: seq<Action>): (n: nat)
    ensures n <= |actions|
  {
    if actions == [] then 0
    else (if actions[0].LogOut? || actions[0].BackToDashboard? then 1 else 0) + Refreshes(actions[1..])
  }

  /** The refresh counter counts the log-outs and returns to the dashboard,
      so it never decreases. */
  lemma {:induction false} RunRefreshTrigger(s: Session, actions: seq<Action>)
    ensures Run(s, actions).refreshTrigger == s.refreshTrigger + Refreshes(actions)
    ensures Run(s, actions).refreshTrigger >= s.refreshTrigger
    decreases |actions|
  {
    if actions != [] {
      RunRefreshTrigger(Step(s, actions[0]), actions[1..]);
    }
  }

  /** After logging in the dashboard of that user is shown. */
  lemma LogInShowsDashboard(s: Session, user: StaffMember)
    ensures RenderCurrentView(Step(s, LogIn(user))) == DashboardScreen(Some(user))
  {
  }

  /** After logging out the login screen is shown, with a fresh counter. */
  lemma LogOutShowsLogin(s: Session)
    ensures RenderCurrentView(Step(s, LogOut)) == LoginScreen(s.refreshTrigger + 1)
  {
  }

  /** Opening the staff manager changes the view and nothing else; logged out
      it still shows the login screen. */
  lemma ShowStaffManagerOnlyView(s: Session)
    ensures Step(s, ShowStaffManager).isLoggedIn == s.isLoggedIn
    ensures Step(s, ShowStaffManager).currentUser == s.currentUser
    ensures Step(s, ShowStaffManager).refreshTrigger == s.refreshTrigger
    ensures RenderCurrentView(Step(s, ShowStaffManager))
              == if s.isLoggedIn then StaffManagerScreen else LoginScreen(s.refreshTrigger)
  {
  }

  /** Going to the staff manager and back shows the dashboard again, with the
      counter moved on by one. */
  lemma StaffManagerRoundTrip(s: Session)
    requires Consistent(s) && s.isLoggedIn
    ensures RenderCurrentView(Run(s, [ShowStaffManager, BackToDashboard])) == DashboardScreen(s.currentUser)
    ensures Run(s, [ShowStaffManager, BackToDashboard]) == s.(currentView := DashboardView, refreshTrigger := s.refreshTrigger + 1)
  {
    assert [ShowStaffManager, BackToDashboard][1..] == [BackToDashboard];
    assert [BackToDashboard][1..] == [];
  }

  // ------------------------------------------------------------- the hook

  /** useAppState: the session fields, updated in place by the actions, and
      the store the session record is kept in. */
  class App {
    var isLoggedIn: bool
    var currentUser: Option<StaffMember>
    var currentView: View
    var refreshTrigger: nat
    const store: LocalStorage

    function State(): Session
      reads this
    {
      Session(isLoggedIn, currentUser, currentView, refreshTrigger)
    }

    /** Mounting: the staff list is initialized and the login view shown. */
    constructor (store: LocalStorage)
      modifies store
      ensures this.store == store && State() == Initial()
      ensures StoredStaff(store.items).Some?
      ensures old(StoredStaff(store.items)).Some? ==> store.items == old(store.items)
      ensures old(StoredStaff(store.items)).None? ==>
                store.items == old(store.items)[StaffKey := StaffList(StaffData.DefaultStaff())]
    {
      var _ := StaffData.InitializeStaffData(store);
      this.store := store;
      isLoggedIn := false;
      currentUser := None;
      currentView := LoginView;
      refreshTrigger := 0;
    }

    /** login: the user becomes the current user and the session record. */
    method Login(user: StaffMember)
      modifies this, store
      ensures State() == Step(old(State()), LogIn(user))
      ensures store.items == old(store.items)[CurrentUserKey := UserRecord(user)]
    {
      currentUser := Some(user);
      isLoggedIn := true;
      currentView := DashboardView;
      var _ := StaffData.SaveCurrentUser(store, user);
    }

    /** logout: the session record is removed and the login view shown. */
    method Logout()
      modifies this, store
      ensures State() == Step(old(State()), LogOut)
      ensures store.items == old(store.items) - {CurrentUserKey}
    {
      var _ := StaffData.ClearCurrentUser(store);
      currentUser := None;
      isLoggedIn := false;
      currentView := LoginView;
      refreshTrigger := refreshTrigger + 1;
    }

    method ShowStaffManager()
      modifies this
      ensures State() == Step(old(State()), Action.ShowStaffManager)
    {
      currentView := StaffManagerView;
    }

    method BackToDashboard()
      modifies this
      ensures State() == Step(old(State()), Action.BackToDashboard)
    {
      currentView := DashboardView;
      refreshTrigger := refreshTrigger + 1;
    }
  }
}
