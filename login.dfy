/** The login screen (src/components/Login.js): the decision a submitted
    username and password lead to, the message shown, the list of active users
    offered, and the reseeding of the default staff when the store has none. */
module Login {
  import opened Common
  import opened Records
  import opened Storage
  import StaffData

  // ---------------------------------------------------------------- decision

  /** `member.username === username && member.password === password && member.isActive`. */
  predicate Matches(m: StaffMember, username: string, password: string) {
    m.username == username && m.password == password && m.isActive
  }

  /** The position of the first member matching the credentials (|staff| if none). */
  function FirstMatch(staff: seq<StaffMember>, username: string, password: string): (i: nat)
    ensures i <= |staff|
    ensures i < |staff| ==> Matches(staff[i], username, password)
    ensures forall j :: 0 <= j < i ==> !Matches(staff[j], username, password)
  {
    if staff == [] || Matches(staff[0], username, password) then 0
    else 1 + FirstMatch(staff[1..], username, password)
  }

  /** `staff.find(...)` with the credentials: the first active member with
      this username and password. */
  function FindMatch(staff: seq<StaffMember>, username: string, password: string): (r: Option<StaffMember>)
    ensures r.None? <==> forall m :: m in staff ==> !Matches(m, username, password)
    ensures r.Some? ==> r.value in staff && r.value.username == username && r.value.password == password && r.value.isActive
    ensures r.Some? ==> exists i :: 0 <= i < |staff| && staff[i] == r.value
                                    && forall j :: 0 <= j < i ==> !Matches(staff[j], username, password)
  {
    var i := FirstMatch(staff, username, password);
    if i < |staff| then Some(staff[i]) else None
  }

  /** What a submission comes to. */
  datatype Decision =
    | MissingCredentials
    | NoStaffData
    | Success(user: StaffMember)
    | Inactive
    | WrongPassword
    | NoSuchUser

  /** handleSubmit's rule: both fields must be filled; with no stored list
      the defaults are seeded instead; otherwise any active member with this
      username and password logs in, and failing that the first member with
      the username decides between inactive and wrong password. */
  function Decide(stored: Option<seq<StaffMember>>, username: string, password: string): (d: Decision)
    ensures d.MissingCredentials? <==> username == "" || password == ""
    ensures d.NoStaffData? <==> username != "" && password != "" && stored.None?
    ensures d.Success? <==> username != "" && password != "" && stored.Some?
                            && exists m :: m in stored.value && m.username == username && m.password == password && m.isActive
    ensures d.Success? ==> d.user in stored.value && d.user.username == username
                           && d.user.password == password && d.user.isActive
    ensures d.Success? ==> d.user == stored.value[FirstMatch(stored.value, username, password)]
    ensures d.Inactive? <==> username != "" && password != "" && stored.Some?
                             && FindMatch(stored.value, username, password).None?
                             && StaffData.FindByUsername(stored.value, username).Some?
                             && !StaffData.FindByUsername(stored.value, username).value.isActive
    ensures d.WrongPassword? <==> username != "" && password != "" && stored.Some?
                                  && FindMatch(stored.value, username, password).None?
                                  && StaffData.FindByUsername(stored.value, username).Some?
                                  && StaffData.FindByUsername(stored.value, username).value.isActive
    ensures d.NoSuchUser? <==> username != "" && password != "" && stored.Some?
                               && forall m :: m in stored.value ==> m.username != username
  {
    if username == "" || password == "" then MissingCredentials
    else if stored.None? then NoStaffData
    else
      match FindMatch(stored.value, username, password)
      case Some(user) => Success(user)
      case None =>
        match StaffData.FindByUsername(stored.value, username)
        case Some(userExists) => if !userExists.isActive then Inactive else WrongPassword
        case None => NoSuchUser
  }

  /** A member flagged to change the password still logs in. */
  lemma MustChangePasswordStillLogsIn(staff: seq<StaffMember>, m: StaffMember)
    requires m in staff && m.isActive && m.mustChangePassword && m.username != "" && m.password != ""
    ensures Decide(Some(staff), m.username, m.password).Success?
  {
  }

  /** With unique usernames, the screen's rule and validateLogin agree on
      every outcome. */
  lemma DecideAgreesWithValidateLogin(items: Items, username: string, password: string)
    requires username != "" && password != ""
    requires StoredStaff(items).Some? && StaffData.UniqueUsernames(StoredStaff(items).value)
    ensures Decide(StoredStaff(items), username, password).Success?
        <==> StaffData.ValidateLogin(items, username, password).Valid?
    ensures Decide(StoredStaff(items), username, password).Inactive?
        <==> StaffData.ValidateLogin(items, username, password) == StaffData.Invalid(StaffData.AccountInactive)
    ensures Decide(StoredStaff(items), username, password).WrongPassword?
        <==> StaffData.ValidateLogin(items, username, password) == StaffData.Invalid(StaffData.InvalidPassword)
    ensures Decide(StoredStaff(items), username, password).NoSuchUser?
        <==> StaffData.ValidateLogin(items, username, password) == StaffData.Invalid(StaffData.UsernameNotFound)
  {
    var staff := StoredStaff(items).value;
    var found := StaffData.FindByUsername(staff, username);
    if found.Some? {
      StaffData.FindUnique(staff, found.value);
      var fm := FindMatch(staff, username, password);
      if fm.Some? {
        StaffData.FindUnique(staff, fm.value);
      }
    }
  }

  /** Without unique usernames they can disagree: an inactive "ann" listed
      before an active "ann" blocks validateLogin but not the screen. */
  lemma DuplicateUsernamesDisagree()
    ensures var inactive := StaffMember("1", "", "", "ann", "old", "standard", "", "", false, "", false);
            var active := StaffMember("2", "", "", "ann", "new", "standard", "", "", true, "", false);
            var items := map[StaffKey := StaffList([inactive, active])];
            Decide(StoredStaff(items), "ann", "new") == Success(active)
            && StaffData.ValidateLogin(items, "ann", "new") == StaffData.Invalid(StaffData.AccountInactive)
  {
    var inactive := StaffMember("1", "", "", "ann", "old", "standard", "", "", false, "", false);
    var active := StaffMember("2", "", "", "ann", "new", "standard", "", "", true, "", false);
    var staff := [inactive, active];
    assert staff[1..] == [active];
    assert "old" != "new";
    assert StaffData.FirstWithUsername(staff, "ann") == 0;
  }

  // ----------------------------------------------------------------- messages

  /** The text shown under the form. */
  datatype Message =
    | NoMessage
    | EnterBoth
    | MustChangePassword
    | AccountInactive
    | InvalidPassword
    | UsernameNotFound(availableUsernames: seq<string>)
    | ResetToDefault
    | AllDataCleared

  function Usernames(users: seq<StaffMember>): (r: seq<string>)
    ensures |r| == |users| && forall i :: 0 <= i < |users| ==> r[i] == users[i].username
  {
    if users == [] then [] else [users[0].username] + Usernames(users[1..])
  }

  /** The message after a submission; a login without the change-password
      flag and a reseed leave the previous message in place. */
  function MessageAfter(d: Decision, previous: Message, available: seq<StaffMember>): (m: Message)
    ensures d.Success? && !d.user.mustChangePassword ==> m == previous
    ensures d.NoStaffData? ==> m == previous
    ensures d.NoSuchUser? ==> m == UsernameNotFound(Usernames(available))
  {
    match d
    case MissingCredentials => EnterBoth
    case NoStaffData => previous
    case Success(user) => if user.mustChangePassword then MustChangePassword else previous
    case Inactive => AccountInactive
    case WrongPassword => InvalidPassword
    case NoSuchUser => UsernameNotFound(Usernames(available))
  }

  // ---------------------------------------------------------- offered users

  /** The list is reseeded when there is no stored list, an empty one, or
      one without an active member. */
  predicate NeedsReseed(stored: Option<seq<StaffMember>>) {
    stored.None? || |stored.value| == 0 || |StaffData.ActiveMembers(stored.value)| == 0
  }

  /** The defaults are all active, so they are all offered. */
  lemma DefaultStaffAllActive()
    ensures |StaffData.DefaultStaff()| > 0 && forall m :: m in StaffData.DefaultStaff() ==> m.isActive
  {
    StaffData.DefaultStaffShape();
  }

  /** loadAvailableUsers: offers the active members of the stored list; a
      missing or empty list, or one with no active member, is replaced by
      the defaults, which are then offered. */
  method LoadAvailableUsers(store: LocalStorage, defaults: seq<StaffMember>) returns (users: seq<StaffMember>)
    requires |defaults| > 0 && forall m :: m in defaults ==> m.isActive
    modifies store
    ensures |users| > 0 && forall m :: m in users ==> m.isActive
    ensures NeedsReseed(old(StoredStaff(store.items))) ==>
              users == defaults && store.items == old(store.items)[StaffKey := StaffList(defaults)]
    ensures !NeedsReseed(old(StoredStaff(store.items))) ==>
              users == StaffData.ActiveMembers(old(StoredStaff(store.items)).value)
              && store.items == old(store.items)
  {
    var savedStaff := StoredStaff(store.items);
    if savedStaff.Some? && |savedStaff.value| > 0 {
      users := StaffData.ActiveMembers(savedStaff.value);
      if |users| == 0 {
        var _ := StaffData.SaveStaffData(store, defaults);
        users := defaults;
      }
    } else {
      var _ := StaffData.SaveStaffData(store, defaults);
      users := defaults;
    }
  }

  // ------------------------------------------------------------- the screen

  class LoginForm {
    var username: string
    var password: string
    var error: Message
    var availableUsers: seq<StaffMember>
    /** The list written whenever the store needs reseeding: the default staff. */
    const defaultStaff: seq<StaffMember>
    const store: LocalStorage

    /** The reseed list is non-empty and all active, and so are the users offered. */
    predicate Valid()
      reads this
    {
      |defaultStaff| > 0 && (forall m :: m in defaultStaff ==> m.isActive)
      && |availableUsers| > 0 && (forall m :: m in availableUsers ==> m.isActive)
    }

    /** Mounting: empty form, no message, and the offered users loaded. */
    constructor (store: LocalStorage)
      modifies store
      ensures this.store == store && defaultStaff == StaffData.DefaultStaff()
      ensures username == "" && password == "" && error == NoMessage && Valid()
      ensures NeedsReseed(old(StoredStaff(store.items))) ==>
                availableUsers == defaultStaff && store.items == old(store.items)[StaffKey := StaffList(defaultStaff)]
      ensures !NeedsReseed(old(StoredStaff(store.items))) ==>
                availableUsers == StaffData.ActiveMembers(old(StoredStaff(store.items)).value)
                && store.items == old(store.items)
    {
      var defaults := StaffData.DefaultStaff();
      DefaultStaffAllActive();
      this.store := store;
      defaultStaff := defaults;
      username := "";
      password := "";
      error := NoMessage;
      var users := LoadAvailableUsers(store, defaults);
      availableUsers := users;
    }

    /** handleInputChange: typing replaces the credentials and clears the message. */
    method HandleInputChange(newUsername: string, newPassword: string)
      modifies this
      ensures username == newUsername && password == newPassword && error == NoMessage
      ensures availableUsers == old(availableUsers)
    {
      username, password := newUsername, newPassword;
      error := NoMessage;
    }

    /** handleSubmit: returns the member handed to onLogin, if any, and
        stores it as the session record; with no stored list it seeds the
        defaults; the message follows MessageAfter. */
    method HandleSubmit() returns (loggedIn: Option<StaffMember>)
      modifies this, store
      ensures var d := Decide(old(StoredStaff(store.items)), old(username), old(password));
              loggedIn == (if d.Success? then Some(d.user) else None)
              && error == MessageAfter(d, old(error), old(availableUsers))
              && (d.Success? ==> store.items == old(store.items)[CurrentUserKey := UserRecord(d.user)])
              && (d.NoStaffData? ==> store.items == old(store.items)[StaffKey := StaffList(defaultStaff)])
              && (!d.Success? && !d.NoStaffData? ==> store.items == old(store.items))
      ensures username == old(username) && password == old(password) && availableUsers == old(availableUsers)
    {
      loggedIn := None;
      if username == "" || password == "" {
        error := EnterBoth;
        return;
      }
      var savedStaff := StoredStaff(store.items);
      if savedStaff.Some? {
        var user := FindMatch(savedStaff.value, username, password);
        if user.Some? {
          if user.value.mustChangePassword {
            error := MustChangePassword;
          }
          store.SetItem(CurrentUserKey, UserRecord(user.value));
          loggedIn := user;
        } else {
          var userExists := StaffData.FindByUsername(savedStaff.value, username);
          if userExists.Some? {
            if !userExists.value.isActive {
              error := AccountInactive;
            } else {
              error := InvalidPassword;
            }
          } else {
            error := UsernameNotFound(Usernames(availableUsers));
          }
        }
      } else {
        var _ := StaffData.SaveStaffData(store, defaultStaff);
      }
    }

    /** handleRefreshUsers, and likewise the staff-update listener and the
        refresh after returning from staff management: reload the offered
        users, clear the message and the credentials. */
    method HandleRefreshUsers()
      requires Valid()
      modifies this, store
      ensures Valid() && username == "" && password == "" && error == NoMessage
      ensures NeedsReseed(old(StoredStaff(store.items))) ==>
                availableUsers == defaultStaff && store.items == old(store.items)[StaffKey := StaffList(defaultStaff)]
      ensures !NeedsReseed(old(StoredStaff(store.items))) ==>
                availableUsers == StaffData.ActiveMembers(old(StoredStaff(store.items)).value)
                && store.items == old(store.items)
    {
      availableUsers := LoadAvailableUsers(store, defaultStaff);
      error := NoMessage;
      username, password := "", "";
    }

    /** The periodic check for new users: the offered list is replaced by the
        stored active members only when their number differs from the number
        offered and is not zero; the store is only read. */
    method Poll()
      requires Valid()
      modifies this
      ensures Valid() && username == old(username) && password == old(password) && error == old(error)
      ensures var saved := StoredStaff(store.items);
              availableUsers ==
                if saved.Some? && |StaffData.ActiveMembers(saved.value)| != |old(availableUsers)|
                   && |StaffData.ActiveMembers(saved.value)| > 0
                then StaffData.ActiveMembers(saved.value) else old(availableUsers)
    {
      var savedStaff := StoredStaff(store.items);
      if savedStaff.Some? {
        var activeUsers := StaffData.ActiveMembers(savedStaff.value);
        if |activeUsers| != |availableUsers| && |activeUsers| > 0 {
          availableUsers := activeUsers;
        }
      }
    }

    /** handleResetData: empties the store, writes the defaults, reloads. */
    method HandleResetData()
      requires Valid()
      modifies this, store
      ensures store.items == map[StaffKey := StaffList(defaultStaff)]
      ensures availableUsers == defaultStaff && Valid()
      ensures error == ResetToDefault && username == "" && password == ""
    {
      store.Clear();
      store.SetItem(StaffKey, StaffList(defaultStaff));
      FilterKeepsAll(defaultStaff, (m: StaffMember) => m.isActive);
      availableUsers := LoadAvailableUsers(store, defaultStaff);
      error := ResetToDefault;
      username, password := "", "";
    }

    /** handleClearAllData: empties the store and restores the defaults. */
    method HandleClearAllData()
      requires Valid()
      modifies this, store
      ensures store.items == map[StaffKey := StaffList(defaultStaff)]
      ensures availableUsers == defaultStaff && Valid()
      ensures error == AllDataCleared && username == "" && password == ""
    {
      store.Clear();
      error := NoMessage;
      username, password := "", "";
      var _ := StaffData.SaveStaffData(store, defaultStaff);
      availableUsers := defaultStaff;
      error := AllDataCleared;
    }
  }
}
