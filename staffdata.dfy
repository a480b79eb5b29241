/** The staff registry and the session record (src/utils/staffData.js): the
    seeded staff list, reading and writing the list, active members, lookup by
    username, validation of a staff record, the logged-in user, and the
    credential check. */
module StaffData {
  import opened Common
  import opened Decimal
  import opened Records
  import opened Storage

  function Member(id: string, name: string, email: string, username: string, password: string,
                  role: string, hourlyRate: string, createdAt: string): StaffMember
  {
    StaffMember(id, name, email, username, password, role, "", hourlyRate, true, createdAt, false)
  }

  /** The five members written to an empty store. */
  function DefaultStaff(): seq<StaffMember> {
    [ Member("1", "John Smith", "john.smith@rookies.com", "johnsmith", "Rookies123!", "admin", "18.50", "2024-01-15T10:00:00.000Z"),
      Member("2", "Sarah Johnson", "sarah.johnson@rookies.com", "sarahj", "password123", "admin", "16.75", "2024-01-20T14:30:00.000Z"),
      Member("3", "Mike Wilson", "mike.wilson@rookies.com", "mikew", "password123", "standard", "14.25", "2024-02-01T09:15:00.000Z"),
      Member("4", "Lisa Davis", "lisa.davis@rookies.com", "lisad", "password123", "admin", "15.50", "2024-02-15T11:30:00.000Z"),
      Member("5", "Jon Muir", "jon.muir@rookies.com", "jonmuir", "password123", "admin", "20.00", "2024-08-08T19:40:00.000Z") ]
  }

  /** No two members share a username. */
  predicate UniqueUsernames(staff: seq<StaffMember>) {
    forall i, j :: 0 <= i < j < |staff| ==> staff[i].username != staff[j].username
  }

  /** No two members share an id. */
  predicate UniqueIds(staff: seq<StaffMember>) {
    forall i, j :: 0 <= i < j < |staff| ==> staff[i].id != staff[j].id
  }

  /** The seeded staff: five active members with distinct ids and usernames,
      and johnsmith an administrator. */
  lemma DefaultStaffShape()
    ensures |DefaultStaff()| == 5
    ensures UniqueUsernames(DefaultStaff()) && UniqueIds(DefaultStaff())
    ensures forall i :: 0 <= i < 5 ==> DefaultStaff()[i].isActive && !DefaultStaff()[i].mustChangePassword
    ensures DefaultStaff()[0].username == "johnsmith" && DefaultStaff()[0].password == "Rookies123!"
    ensures DefaultStaff()[0].role == "admin"
  {
    var d := DefaultStaff();
    DefaultUsernamesDiffer(d);
    DefaultIdsDiffer(d);
  }

  lemma DefaultUsernamesDiffer(d: seq<StaffMember>)
    requires d == DefaultStaff()
    ensures UniqueUsernames(d)
  {
    var u := seq(5, i requires 0 <= i < 5 => d[i].username);
    assert u[0][0] == 'j' && u[1][0] == 's' && u[2][0] == 'm' && u[3][0] == 'l' && u[4][0] == 'j';
    assert u[0][3] != u[4][3];
  }

  lemma DefaultIdsDiffer(d: seq<StaffMember>)
    requires d == DefaultStaff()
    ensures UniqueIds(d)
  {
    assert d[0].id[0] == '1' && d[1].id[0] == '2' && d[2].id[0] == '3';
    assert d[3].id[0] == '4' && d[4].id[0] == '5';
  }

  /** Every seeded member passes validateStaffMember. */
  lemma DefaultStaffValid()
    ensures forall i :: 0 <= i < |DefaultStaff()| ==> ValidateStaffMember(DefaultStaff()[i]).Ok?
  {
    var d := DefaultStaff();
    forall i | 0 <= i < |d| ensures ValidateStaffMember(d[i]).Ok? {
      var m := d[i];
      assert IsDigit(m.hourlyRate[0]);
      forall f: Field ensures !Lacks(m, f) {
      }
    }
  }

  // ---------------------------------------------------------------- reads

  /** getActiveStaff on a list: the members whose isActive is set, in order. */
  function ActiveMembers(staff: seq<StaffMember>): (r: seq<StaffMember>)
    ensures forall m :: m in r <==> m in staff && m.isActive
  {
    Filter(staff, (m: StaffMember) => m.isActive)
  }

  /** getActiveStaff: the active members of the stored list; none without a list. */
  function GetActiveStaff(items: Items): (r: seq<StaffMember>)
    ensures StoredStaff(items).None? ==> r == []
    ensures forall m :: m in r <==> StoredStaff(items).Some? && m in StoredStaff(items).value && m.isActive
  {
    match StoredStaff(items)
    case None => []
    case Some(staff) => ActiveMembers(staff)
  }

  /** The position of the first member with the username (|staff| if none). */
  function FirstWithUsername(staff: seq<StaffMember>, username: string): (i: nat)
    ensures i <= |staff|
    ensures i < |staff| ==> staff[i].username == username
    ensures forall j :: 0 <= j < i ==> staff[j].username != username
  {
    if staff == [] || staff[0].username == username then 0
    else 1 + FirstWithUsername(staff[1..], username)
  }

  /** Array.prototype.find by username: the first member with it, if any. */
  function FindByUsername(staff: seq<StaffMember>, username: string): (r: Option<StaffMember>)
    ensures r.None? <==> forall m :: m in staff ==> m.username != username
    ensures r.Some? ==> r.value in staff && r.value.username == username
    ensures r.Some? <==> FirstWithUsername(staff, username) < |staff|
    ensures r.Some? ==> r.value == staff[FirstWithUsername(staff, username)]
  {
    var i := FirstWithUsername(staff, username);
    if i < |staff| then Some(staff[i]) else None
  }

  /** With unique usernames, the member found is the only one with that name. */
  lemma FindUnique(staff: seq<StaffMember>, m: StaffMember)
    requires UniqueUsernames(staff) && m in staff
    ensures FindByUsername(staff, m.username) == Some(m)
  {
    var k :| 0 <= k < |staff| && staff[k] == m;
    var i := FirstWithUsername(staff, m.username);
    assert i <= k;
  }

  /** findStaffByUsername: the first stored member with the username;
      nothing without a list. */
  function FindStaffByUsername(items: Items, username: string): (r: Option<StaffMember>)
    ensures StoredStaff(items).None? ==> r.None?
    ensures r.Some? ==> r.value in StoredStaff(items).value && r.value.username == username
    ensures StoredStaff(items).Some? ==>
              var staff := StoredStaff(items).value;
              (r.Some? <==> exists m :: m in staff && m.username == username)
              && (r.Some? ==> r.value == staff[FirstWithUsername(staff, username)])
  {
    match StoredStaff(items)
    case None => None
    case Some(staff) => FindByUsername(staff, username)
  }

  // ------------------------------------------------------------ validation

  /** The fields a staff record must have, in the order they are checked. */
  datatype Field = Name | Email | Username | Password | Role | HourlyRate

  function RequiredFields(): seq<Field> {
    [Name, Email, Username, Password, Role, HourlyRate]
  }

  /** Every field is checked. */
  lemma AllFieldsRequired()
    ensures forall f :: f in RequiredFields()
  {
    var fields := RequiredFields();
    forall f: Field
      ensures f in fields
    {
      var i := match f
        case Name => 0 case Email => 1 case Username => 2
        case Password => 3 case Role => 4 case HourlyRate => 5;
      assert fields[i] == f;
    }
  }

  /** `member[field]`. */
  function FieldValue(m: StaffMember, f: Field): string {
    match f
    case Name => m.name
    case Email => m.email
    case Username => m.username
    case Password => m.password
    case Role => m.role
    case HourlyRate => m.hourlyRate
  }

  /** A JavaScript comparison `x < 0`: false for NaN. */
  predicate IsNegative(x: Num) {
    x.Finite? && x.v < 0.0
  }

  /** `!member[field]`: the field is empty. */
  predicate Lacks(m: StaffMember, f: Field) {
    |FieldValue(m, f)| == 0
  }

  /** `fields.filter(field => !member[field])`. */
  function MissingOf(m: StaffMember, fields: seq<Field>): seq<Field> {
    if fields == [] then []
    else (if Lacks(m, fields[0]) then [fields[0]] else []) + MissingOf(m, fields[1..])
  }

  /** The missing fields are exactly the listed fields the record lacks. */
  lemma {:induction false} MissingOfMembers(m: StaffMember, fields: seq<Field>)
    ensures forall f :: f in MissingOf(m, fields) <==> f in fields && Lacks(m, f)
  {
    if fields != [] {
      MissingOfMembers(m, fields[1..]);
      assert forall f :: f in fields <==> f == fields[0] || f in fields[1..];
    }
  }

  /** MissingOf is `filter` with the test `!member[field]`: the lacking fields,
      each once, in the order checked. */
  lemma {:induction false} MissingOfIsFilter(m: StaffMember, fields: seq<Field>)
    ensures MissingOf(m, fields) == Filter(fields, f => Lacks(m, f))
  {
    if fields != [] {
      MissingOfIsFilter(m, fields[1..]);
    }
  }

  /** The outcome of validateStaffMember: valid; the empty required fields
      (reported by name); or the single error "hourlyRate must be positive". */
  datatype Validation = Ok | MissingFields(fields: seq<Field>) | NegativeRate

  /** validateStaffMember: the required fields that are empty, in the order
      listed; failing that, a rate that parses to a negative number. */
  function ValidateStaffMember(m: StaffMember): (r: Validation)
    ensures r.Ok? <==> (forall f :: !Lacks(m, f)) && !IsNegative(ParseFloat(m.hourlyRate))
    ensures r.MissingFields? <==> exists f :: Lacks(m, f)
    ensures r.MissingFields? ==> forall f :: f in r.fields <==> Lacks(m, f)
    ensures r.MissingFields? ==> r.fields == Filter(RequiredFields(), f => Lacks(m, f))
    ensures r.NegativeRate? <==> (forall f :: !Lacks(m, f)) && IsNegative(ParseFloat(m.hourlyRate))
  {
    var missing := MissingOf(m, RequiredFields());
    MissingOfMembers(m, RequiredFields());
    MissingOfIsFilter(m, RequiredFields());
    AllFieldsRequired();
    if |missing| > 0 then
      assert missing[0] in missing;
      MissingFields(missing)
    else if |m.hourlyRate| > 0 && IsNegative(ParseFloat(m.hourlyRate)) then NegativeRate
    else Ok
  }

  /** The missing fields keep the relative order of the fields checked. */
  lemma {:induction false} MissingOfAppend(m: StaffMember, a: seq<Field>, b: seq<Field>)
    ensures MissingOf(m, a + b) == MissingOf(m, a) + MissingOf(m, b)
  {
    if a == [] {
      assert a + b == b;
    } else {
      assert (a + b)[0] == a[0];
      assert (a + b)[1..] == a[1..] + b;
      MissingOfAppend(m, a[1..], b);
    }
  }

  lemma MissingOfOne(m: StaffMember, f: Field)
    ensures MissingOf(m, [f]) == if Lacks(m, f) then [f] else []
  {
    assert [f][1..] == [];
  }

  /** The missing fields are reported in the order the required list gives:
      a record lacking only its name and its rate reports exactly those two,
      name first. */
  lemma MissingFieldsInOrder(m: StaffMember)
    requires Lacks(m, Name) && Lacks(m, HourlyRate)
    requires !Lacks(m, Email) && !Lacks(m, Username) && !Lacks(m, Password) && !Lacks(m, Role)
    ensures ValidateStaffMember(m) == MissingFields([Name, HourlyRate])
  {
    var missing := MissingOf(m, RequiredFields());
    assert missing == [Name, HourlyRate] by {
      MissingOfExample(m);
    }
    assert |missing| > 0;
  }

  lemma MissingOfExample(m: StaffMember)
    requires Lacks(m, Name) && Lacks(m, HourlyRate)
    requires !Lacks(m, Email) && !Lacks(m, Username) && !Lacks(m, Password) && !Lacks(m, Role)
    ensures MissingOf(m, RequiredFields()) == [Name, HourlyRate]
  {
    var f2, f3, f4, f5 := [Name, Email], [Name, Email, Username], [Name, Email, Username, Password],
                          [Name, Email, Username, Password, Role];
    assert MissingOf(m, f2) == [Name] by {
      assert f2 == [Name] + [Email];
      MissingOfOne(m, Name);
      MissingOfOne(m, Email);
      MissingOfAppend(m, [Name], [Email]);
    }
    assert MissingOf(m, f3) == [Name] by {
      assert f3 == f2 + [Username];
      MissingOfOne(m, Username);
      MissingOfAppend(m, f2, [Username]);
    }
    assert MissingOf(m, f4) == [Name] by {
      assert f4 == f3 + [Password];
      MissingOfOne(m, Password);
      MissingOfAppend(m, f3, [Password]);
    }
    assert MissingOf(m, f5) == [Name] by {
      assert f5 == f4 + [Role];
      MissingOfOne(m, Role);
      MissingOfAppend(m, f4, [Role]);
    }
    assert RequiredFields() == f5 + [HourlyRate];
    MissingOfOne(m, HourlyRate);
    MissingOfAppend(m, f5, [HourlyRate]);
  }

  // -------------------------------------------------------------- session

  /** getCurrentUser: the stored session record, if any. */
  function GetCurrentUser(items: Items): (r: Option<StaffMember>)
    ensures r.Some? <==> CurrentUserKey in items && items[CurrentUserKey].UserRecord?
    ensures r.Some? ==> r.value == items[CurrentUserKey].user
  {
    if CurrentUserKey in items && items[CurrentUserKey].UserRecord? then Some(items[CurrentUserKey].user) else None
  }

  /** A user written under the session key is the user read back. */
  lemma GetCurrentUserReadBack(items: Items, user: StaffMember)
    ensures GetCurrentUser(items[CurrentUserKey := UserRecord(user)]) == Some(user)
  {
  }

  /** Writing the session record leaves the staff list and the ledger alone. */
  lemma SessionKeyIsSeparate(items: Items, v: Value)
    ensures StoredStaff(items[CurrentUserKey := v]) == StoredStaff(items)
    ensures StoredLedger(items[CurrentUserKey := v]) == StoredLedger(items)
    ensures StoredStaff(items - {CurrentUserKey}) == StoredStaff(items)
    ensures StoredLedger(items - {CurrentUserKey}) == StoredLedger(items)
  {
  }

  /** saveStaffData. */
  method SaveStaffData(store: LocalStorage, staff: seq<StaffMember>) returns (ok: bool)
    modifies store
    ensures ok
    ensures store.items == old(store.items)[StaffKey := StaffList(staff)]
    ensures StoredStaff(store.items) == Some(staff)
  {
    store.SetItem(StaffKey, StaffList(staff));
    ok := true;
  }

  /** initializeStaffData: seeds the default staff only when no list is
      stored, and returns the list now in force. */
  method InitializeStaffData(store: LocalStorage) returns (staff: seq<StaffMember>)
    modifies store
    ensures StoredStaff(store.items) == Some(staff)
    ensures old(StoredStaff(store.items)).None? ==>
              staff == DefaultStaff() && store.items == old(store.items)[StaffKey := StaffList(DefaultStaff())]
    ensures old(StoredStaff(store.items)).Some? ==>
              staff == old(StoredStaff(store.items)).value && store.items == old(store.items)
  {
    var existing := StoredStaff(store.items);
    if existing.None? {
      var _ := SaveStaffData(store, DefaultStaff());
      staff := DefaultStaff();
    } else {
      staff := existing.value;
    }
  }

  /** saveCurrentUser. */
  method SaveCurrentUser(store: LocalStorage, user: StaffMember) returns (ok: bool)
    modifies store
    ensures ok
    ensures store.items == old(store.items)[CurrentUserKey := UserRecord(user)]
    ensures GetCurrentUser(store.items) == Some(user)
  {
    store.SetItem(CurrentUserKey, UserRecord(user));
    ok := true;
  }

  /** clearCurrentUser: removes the session record and nothing else. */
  method ClearCurrentUser(store: LocalStorage) returns (ok: bool)
    modifies store
    ensures ok
    ensures store.items == old(store.items) - {CurrentUserKey}
    ensures GetCurrentUser(store.items).None?
  {
    store.RemoveItem(CurrentUserKey);
    ok := true;
  }

  // ----------------------------------------------------------- credentials

  datatype LoginCheck = Valid(user: StaffMember) | Invalid(error: string)

  const UsernameNotFound := "Username not found"
  const AccountInactive := "Account is inactive"
  const InvalidPassword := "Invalid password"

  /** validateLogin: looks only at the first member with the username; it
      must exist, be active, and have exactly this password, checked in that order. */
  function ValidateLogin(items: Items, username: string, password: string): (r: LoginCheck)
    ensures r.Valid? ==> r.user in StoredStaffOrEmpty(items) && r.user.username == username
                         && r.user.password == password && r.user.isActive
    ensures r == Invalid(UsernameNotFound) <==> FindStaffByUsername(items, username).None?
    ensures r == Invalid(AccountInactive) <==>
              FindStaffByUsername(items, username).Some? && !FindStaffByUsername(items, username).value.isActive
    ensures r == Invalid(InvalidPassword) <==>
              FindStaffByUsername(items, username).Some? && FindStaffByUsername(items, username).value.isActive
              && FindStaffByUsername(items, username).value.password != password
    ensures r.Valid? <==>
              FindStaffByUsername(items, username).Some? && FindStaffByUsername(items, username).value.isActive
              && FindStaffByUsername(items, username).value.password == password
    ensures r.Valid? ==> r.user == FindStaffByUsername(items, username).value
    ensures r.Invalid? ==> r.error in {UsernameNotFound, AccountInactive, InvalidPassword}
  {
    match FindStaffByUsername(items, username)
    case None => Invalid(UsernameNotFound)
    case Some(user) =>
      if !user.isActive then Invalid(AccountInactive)
      else if user.password != password then Invalid(InvalidPassword)
      else Valid(user)
  }

  /** When usernames are unique, validateLogin succeeds exactly for an active
      member holding this username and password. */
  lemma ValidateLoginUnique(items: Items, username: string, password: string)
    requires UniqueUsernames(StoredStaffOrEmpty(items))
    ensures ValidateLogin(items, username, password).Valid? <==>
              exists m :: m in StoredStaffOrEmpty(items) && m.username == username
                          && m.password == password && m.isActive
  {
    var staff := StoredStaffOrEmpty(items);
    if m :| m in staff && m.username == username && m.password == password && m.isActive {
      FindUnique(staff, m);
    }
  }
}
