/** The staff management screen (src/components/StaffManager.js): adding a
    member, editing rate, role and approver, toggling and deleting members,
    the approver choices, and the search and role filter over the list.
    Each handler is specified by a function on the staff list; the view class
    holds the screen's state and keeps the stored list equal to it. */
module StaffManager {
  import opened Common
  import opened Decimal
  import opened Records
  import opened Storage
  import opened StaffData

  // ----------------------------------------------------------------- adding

  /** The add form as it is after mounting and after every successful add. */
  function EmptyForm(createdAt: string): StaffMember {
    StaffMember("", "", "", "", "", "standard", "", "", true, createdAt, false)
  }

  /** `staff.some(member => member.username === username)`. */
  predicate UsernameTaken(staff: seq<StaffMember>, username: string) {
    exists m :: m in staff && m.username == username
  }

  /** The add form lacks one of the fields the screen insists on (the role
      is not among them: its selector always holds a value). */
  predicate FormIncomplete(form: StaffMember) {
    form.name == "" || form.email == "" || form.username == "" || form.password == "" || form.hourlyRate == ""
  }

  datatype AddResult = FillRequiredFields | UsernameExists | Added(staff: seq<StaffMember>)

  /** handleAddStaff: rejects an incomplete form, then a username already in
      use by any member (active or not); otherwise appends the form as a new
      member carrying the given id and creation time. */
  function AddStaff(staff: seq<StaffMember>, form: StaffMember, id: string, createdAt: string): (r: AddResult)
    ensures r.FillRequiredFields? <==> FormIncomplete(form)
    ensures r.UsernameExists? <==> !FormIncomplete(form) && UsernameTaken(staff, form.username)
    ensures r.Added? ==> |r.staff| == |staff| + 1 && r.staff[..|staff|] == staff
    ensures r.Added? ==> r.staff[|staff|] == form.(id := id, createdAt := createdAt)
  {
    if FormIncomplete(form) then FillRequiredFields
    else if UsernameTaken(staff, form.username) then UsernameExists
    else Added(staff + [form.(id := id, createdAt := createdAt)])
  }

  /** Adding keeps usernames unique, and the new member is the one a lookup
      by its username finds. */
  lemma AddKeepsUsernamesUnique(staff: seq<StaffMember>, form: StaffMember, id: string, createdAt: string)
    requires UniqueUsernames(staff)
    requires AddStaff(staff, form, id, createdAt).Added?
    ensures UniqueUsernames(AddStaff(staff, form, id, createdAt).staff)
    ensures FindByUsername(AddStaff(staff, form, id, createdAt).staff, form.username)
         == Some(form.(id := id, createdAt := createdAt))
  {
    var r := AddStaff(staff, form, id, createdAt).staff;
    forall i, j | 0 <= i < j < |r| ensures r[i].username != r[j].username {
      if j == |staff| {
        assert r[i] in staff;
      } else {
        assert r[i] == staff[i] && r[j] == staff[j];
      }
    }
    FindUnique(r, r[|staff|]);
  }

  // --------------------------------------------------------- editing members

  /** The rate typed into the editor as it is stored: parseFloat of the text
      with two decimals, or nothing when the text is not a number or is negative. */
  function NormalizedRate(text: string): (r: Option<string>)
    ensures r.None? <==> ParseFloat(text).NaN? || ParseFloat(text).v < 0.0
    ensures r.Some? ==> ParseFloat(r.value) == Finite(Round2(ParseFloat(text).v))
  {
    match ParseFloat(text)
    case NaN => None
    case Finite(v) =>
      if v < 0.0 then None
      else
        ParseFixedString(RoundHundredths(v));
        Some(FormatFixed2(v))
  }

  /** A stored rate read back again gives the same text: saving a rate
      twice is the same as saving it once. */
  lemma NormalizedRateIdempotent(text: string)
    requires NormalizedRate(text).Some?
    ensures NormalizedRate(NormalizedRate(text).value) == NormalizedRate(text)
  {
    var v := ParseFloat(text).v;
    var c := RoundHundredths(v);
    NormalizedRateOf(text, v);
    var stored := FormatFixed2(v);
    assert stored == FixedString(c);
    assert ParseFloat(stored) == Finite(c as real / 100.0) by {
      ParseFixedString(c);
    }
    RoundHundredthsExact(c);
    NormalizedRateOf(stored, c as real / 100.0);
  }

  lemma NormalizedRateOf(text: string, v: real)
    requires ParseFloat(text) == Finite(v) && v >= 0.0
    ensures NormalizedRate(text) == Some(FormatFixed2(v))
  {
  }

  /** A change the screen applies to the member with a given id. */
  datatype Change =
    | SetRate(rate: string)
    | SetDetails(rate: string, approver: string, role: string)
    | ToggleActive

  function Apply(m: StaffMember, change: Change): StaffMember {
    match change
    case SetRate(rate) => m.(hourlyRate := rate)
    case SetDetails(rate, approver, role) => m.(hourlyRate := rate, approver := approver, role := role)
    case ToggleActive => m.(isActive := !m.isActive)
  }

  /** `staff.map(member => member.id === id ? change(member) : member)`. */
  function MapById(staff: seq<StaffMember>, id: string, change: Change): (r: seq<StaffMember>)
    ensures |r| == |staff|
    ensures forall i :: 0 <= i < |r| ==> r[i] == if staff[i].id == id then Apply(staff[i], change) else staff[i]
  {
    if staff == [] then [] else [if staff[0].id == id then Apply(staff[0], change) else staff[0]] + MapById(staff[1..], id, change)
  }

  /** Edits change the matching members only, and never an id, username or
      password, so unique ids and usernames stay unique. */
  lemma MapByIdKeepsIdentity(staff: seq<StaffMember>, id: string, change: Change)
    ensures var r := MapById(staff, id, change);
            forall i :: 0 <= i < |r| ==>
              r[i].id == staff[i].id && r[i].username == staff[i].username && r[i].password == staff[i].password
    ensures UniqueUsernames(staff) ==> UniqueUsernames(MapById(staff, id, change))
    ensures UniqueIds(staff) ==> UniqueIds(MapById(staff, id, change))
  {
    var r := MapById(staff, id, change);
    forall i | 0 <= i < |r|
      ensures r[i].id == staff[i].id && r[i].username == staff[i].username && r[i].password == staff[i].password
    {
      ApplyKeepsIdentity(staff[i], change);
    }
  }

  lemma ApplyKeepsIdentity(m: StaffMember, change: Change)
    ensures Apply(m, change).id == m.id && Apply(m, change).username == m.username
    ensures Apply(m, change).password == m.password
  {
  }

  /** handleSaveMember on the list: the members with the id get the rate with
      two decimals, the approver and the role; a rate that is not a number or
      is negative leaves the list as it is. */
  function SaveMember(staff: seq<StaffMember>, id: string, rateText: string, approver: string, role: string)
    : (r: Option<seq<StaffMember>>)
    ensures r.None? <==> NormalizedRate(rateText).None?
    ensures r.Some? ==> |r.value| == |staff| && forall i :: 0 <= i < |staff| ==>
              r.value[i] == if staff[i].id == id
                            then staff[i].(hourlyRate := NormalizedRate(rateText).value, approver := approver, role := role)
                            else staff[i]
  {
    match NormalizedRate(rateText)
    case None => None
    case Some(rate) => Some(MapById(staff, id, SetDetails(rate, approver, role)))
  }

  /** handleSaveRate on the list: as SaveMember, for the rate alone. */
  function SaveRate(staff: seq<StaffMember>, id: string, rateText: string): (r: Option<seq<StaffMember>>)
    ensures r.None? <==> NormalizedRate(rateText).None?
    ensures r.Some? ==> |r.value| == |staff| && forall i :: 0 <= i < |staff| ==>
              r.value[i] == if staff[i].id == id then staff[i].(hourlyRate := NormalizedRate(rateText).value) else staff[i]
  {
    match NormalizedRate(rateText)
    case None => None
    case Some(rate) => Some(MapById(staff, id, SetRate(rate)))
  }

  /** Saving a member with the approver and role it already has is saving its rate. */
  lemma SaveMemberGeneralizesSaveRate(staff: seq<StaffMember>, m: StaffMember, rateText: string)
    requires UniqueIds(staff) && m in staff
    ensures SaveMember(staff, m.id, rateText, m.approver, m.role) == SaveRate(staff, m.id, rateText)
  {
    if NormalizedRate(rateText).Some? {
      var rate := NormalizedRate(rateText).value;
      var a := MapById(staff, m.id, SetDetails(rate, m.approver, m.role));
      var b := MapById(staff, m.id, SetRate(rate));
      assert m.(hourlyRate := rate, approver := m.approver, role := m.role) == m.(hourlyRate := rate);
      var k :| 0 <= k < |staff| && staff[k] == m;
      forall i | 0 <= i < |staff| ensures a[i] == b[i] {
        if staff[i].id == m.id {
          assert i == k;
        }
      }
      assert a == b;
    }
  }

  /** handleToggleActive on the list. */
  function ToggleActiveById(staff: seq<StaffMember>, id: string): (r: seq<StaffMember>)
    ensures |r| == |staff|
    ensures forall i :: 0 <= i < |r| ==>
              r[i].isActive == (if staff[i].id == id then !staff[i].isActive else staff[i].isActive)
              && r[i] == staff[i].(isActive := r[i].isActive)
  {
    MapById(staff, id, ToggleActive)
  }

  /** Toggling the same member twice restores the list. */
  lemma ToggleTwice(staff: seq<StaffMember>, id: string)
    ensures ToggleActiveById(ToggleActiveById(staff, id), id) == staff
  {
    var r := ToggleActiveById(ToggleActiveById(staff, id), id);
    assert |r| == |staff|;
    assert forall i :: 0 <= i < |r| ==> r[i] == staff[i];
  }

  /** handleDeleteStaff on the list: every member with the id goes, the rest
      stay in their order. */
  function DeleteStaff(staff: seq<StaffMember>, id: string): (r: seq<StaffMember>)
    ensures |r| <= |staff|
    ensures forall m :: m in r <==> m in staff && m.id != id
  {
    Filter(staff, (m: StaffMember) => m.id != id)
  }

  /** Deleting from a concatenation deletes from each part: the survivors
      keep their relative order. */
  lemma DeleteKeepsOrder(a: seq<StaffMember>, b: seq<StaffMember>, id: string)
    ensures DeleteStaff(a + b, id) == DeleteStaff(a, id) + DeleteStaff(b, id)
  {
    FilterAppend(a, b, (m: StaffMember) => m.id != id);
  }

  /** Deleting a member that is not there changes nothing. */
  lemma DeleteAbsent(staff: seq<StaffMember>, id: string)
    requires forall i :: 0 <= i < |staff| ==> staff[i].id != id
    ensures DeleteStaff(staff, id) == staff
  {
    FilterKeepsAll(staff, (m: StaffMember) => m.id != id);
  }

  lemma TailUnique(staff: seq<StaffMember>)
    requires staff != [] && UniqueUsernames(staff)
    ensures UniqueUsernames(staff[1..])
    ensures forall m :: m in staff[1..] ==> m.username != staff[0].username
  {
    var rest := staff[1..];
    forall i, j | 0 <= i < j < |rest| ensures rest[i].username != rest[j].username {
      assert rest[i] == staff[i + 1] && rest[j] == staff[j + 1];
    }
    forall m | m in rest ensures m.username != staff[0].username {
      var k :| 0 <= k < |rest| && rest[k] == m;
      assert staff[k + 1] == m;
    }
  }

  lemma ConsUnique(x: StaffMember, t: seq<StaffMember>)
    requires UniqueUsernames(t)
    requires forall m :: m in t ==> m.username != x.username
    ensures UniqueUsernames([x] + t)
  {
    var r := [x] + t;
    forall i, j | 0 <= i < j < |r| ensures r[i].username != r[j].username {
      assert r[j] == t[j - 1];
      if i > 0 {
        assert r[i] == t[i - 1];
      } else {
        assert r[j] in t;
      }
    }
  }

  /** Deleting keeps usernames unique. */
  lemma {:induction false} DeleteKeepsUsernamesUnique(staff: seq<StaffMember>, id: string)
    requires UniqueUsernames(staff)
    ensures UniqueUsernames(DeleteStaff(staff, id))
  {
    if staff != [] {
      TailUnique(staff);
      DeleteKeepsUsernamesUnique(staff[1..], id);
      var tail := DeleteStaff(staff[1..], id);
      assert DeleteStaff(staff, id) == (if staff[0].id != id then [staff[0]] else []) + tail;
      if staff[0].id != id {
        ConsUnique(staff[0], tail);
      } else {
        assert DeleteStaff(staff, id) == tail;
      }
    }
  }

  // -------------------------------------------------------- approver choices

  predicate ApproverRole(role: string) {
    role == "approver" || role == "admin"
  }

  /** getAvailableApprovers: active approvers and admins other than the
      username being added. */
  function ApproverCandidates(staff: seq<StaffMember>, username: string): (r: seq<StaffMember>)
    ensures forall m :: m in r <==> m in staff && ApproverRole(m.role) && m.isActive && m.username != username
  {
    Filter(staff, (m: StaffMember) => ApproverRole(m.role) && m.isActive && m.username != username)
  }

  /** getAvailableApproversForEdit: active approvers and admins other than
      the member being edited. */
  function EditApproverCandidates(staff: seq<StaffMember>, id: string): (r: seq<StaffMember>)
    ensures forall m :: m in r <==> m in staff && ApproverRole(m.role) && m.isActive && m.id != id
  {
    Filter(staff, (m: StaffMember) => ApproverRole(m.role) && m.isActive && m.id != id)
  }

  /** Nobody is offered as their own approver, whether being added or edited;
      with unique ids, the edit choices are all the others who qualify. */
  lemma NeverOwnApprover(staff: seq<StaffMember>, m: StaffMember)
    requires UniqueIds(staff) && m in staff
    ensures m !in EditApproverCandidates(staff, m.id)
    ensures m !in ApproverCandidates(staff, m.username)
    ensures forall o :: o in staff && o != m && ApproverRole(o.role) && o.isActive ==>
              o in EditApproverCandidates(staff, m.id)
  {
    forall o | o in staff && o != m
      ensures o.id != m.id
    {
      var i :| 0 <= i < |staff| && staff[i] == o;
      var j :| 0 <= j < |staff| && staff[j] == m;
      assert i != j;
    }
  }

  // ---------------------------------------------------------- search filter

  /** toLowerCase on ASCII letters. */
  function LowerChar(c: char): char {
    if 'A' <= c <= 'Z' then (c as int + 32) as char else c
  }

  function Lower(s: string): (r: string)
    ensures |r| == |s|
    ensures forall i :: 0 <= i < |s| ==> r[i] == LowerChar(s[i])
  {
    if s == [] then [] else [LowerChar(s[0])] + Lower(s[1..])
  }

  predicate IsPrefix(p: string, s: string) {
    |p| <= |s| && s[..|p|] == p
  }

  /** `s.includes(sub)`. */
  predicate Includes(s: string, sub: string)
    decreases |s|
  {
    IsPrefix(sub, s) || (|s| > 0 && Includes(s[1..], sub))
  }

  /** sub occurs in s starting at position k. */
  predicate OccursAt(s: string, sub: string, k: nat) {
    k + |sub| <= |s| && s[k..k + |sub|] == sub
  }

  /** includes finds sub wherever it occurs. */
  lemma {:induction false} IncludesAt(s: string, sub: string, k: nat)
    requires OccursAt(s, sub, k)
    ensures Includes(s, sub)
    decreases k
  {
    if k > 0 {
      assert s[1..][k - 1..k - 1 + |sub|] == sub;
      IncludesAt(s[1..], sub, k - 1);
    }
  }

  /** includes finds sub only where it occurs. */
  lemma {:induction false} IncludesOccurs(s: string, sub: string)
    requires Includes(s, sub)
    ensures exists k: nat :: OccursAt(s, sub, k)
    decreases |s|
  {
    if IsPrefix(sub, s) {
      assert OccursAt(s, sub, 0);
    } else {
      IncludesOccurs(s[1..], sub);
      var k: nat :| OccursAt(s[1..], sub, k);
      assert s[k + 1..k + 1 + |sub|] == s[1..][k..k + |sub|];
      assert OccursAt(s, sub, k + 1);
    }
  }

  /** The filter rule of the list: the search text (ignoring case) occurs in
      the name, email or username, and the role matches unless it is 'all'. */
  predicate Matches(m: StaffMember, searchTerm: string, filterRole: string) {
    var term := Lower(searchTerm);
    (Includes(Lower(m.name), term) || Includes(Lower(m.email), term) || Includes(Lower(m.username), term))
    && (filterRole == "all" || m.role == filterRole)
  }

  /** filteredStaff. */
  function FilterStaff(staff: seq<StaffMember>, searchTerm: string, filterRole: string): (r: seq<StaffMember>)
    ensures forall m :: m in r <==> m in staff && Matches(m, searchTerm, filterRole)
  {
    Filter(staff, (m: StaffMember) => Matches(m, searchTerm, filterRole))
  }

  /** With no search text and role 'all' the whole list shows, in order; a
      member's own username always finds it. */
  lemma FilterStaffShowsAll(staff: seq<StaffMember>, m: StaffMember)
    ensures FilterStaff(staff, "", "all") == staff
    ensures m in staff ==> m in FilterStaff(staff, m.username, "all")
  {
    forall i | 0 <= i < |staff| ensures Matches(staff[i], "", "all") {
      IncludesAt(Lower(staff[i].name), Lower(""), 0);
    }
    FilterKeepsAll(staff, (x: StaffMember) => Matches(x, "", "all"));
    IncludesAt(Lower(m.username), Lower(m.username), 0);
  }

  /** getRoleDisplayName. */
  function RoleDisplayName(role: string): (name: string)
    ensures role == "standard" ==> name == "Standard User"
    ensures role == "approver" ==> name == "Approver"
    ensures role == "admin" ==> name == "Admin"
    ensures role !in {"standard", "approver", "admin"} ==> name == role
  {
    match role
    case "standard" => "Standard User"
    case "approver" => "Approver"
    case "admin" => "Admin"
    case _ => role
  }

  // -------------------------------------------------------------- the screen

  /** The inline editor: which member is open and the texts it holds. */
  datatype Editor = Editor(member: Option<string>, rate: string, approver: string, role: string)

  const ClosedEditor := Editor(None, "", "", "standard")

  /** The staff management screen. `staff` is the list shown; every handler
      that changes it writes the whole list to the staff key. */
  class StaffManagerView {
    var staff: seq<StaffMember>
    var newStaff: StaffMember
    var editor: Editor
    var searchTerm: string
    var filterRole: string
    const store: LocalStorage

    /** The stored staff list is the list on screen. */
    predicate Synced()
      reads this, store
    {
      StoredStaff(store.items) == Some(staff)
    }

    /** Mounting: shows the stored list when it has members; otherwise
        stores and shows the default staff. */
    constructor (store: LocalStorage, now: string)
      modifies store
      ensures this.store == store && Synced()
      ensures newStaff == EmptyForm(now) && editor == ClosedEditor && searchTerm == "" && filterRole == "all"
      ensures var saved := old(StoredStaff(store.items));
              if saved.Some? && |saved.value| > 0
              then staff == saved.value && store.items == old(store.items)
              else staff == DefaultStaff() && store.items == old(store.items)[StaffKey := StaffList(DefaultStaff())]
    {
      var saved := StoredStaff(store.items);
      var list;
      if saved.Some? && |saved.value| > 0 {
        list := saved.value;
      } else {
        var _ := SaveStaffData(store, DefaultStaff());
        list := DefaultStaff();
      }
      this.store := store;
      staff := list;
      newStaff := EmptyForm(now);
      editor := ClosedEditor;
      searchTerm := "";
      filterRole := "all";
    }

    /** The rows shown: the list under the search text and role filter. */
    function Visible(): (r: seq<StaffMember>)
      reads this
      ensures forall m :: m in r <==> m in staff && Matches(m, searchTerm, filterRole)
    {
      FilterStaff(staff, searchTerm, filterRole)
    }

    /** Replaces the list and writes it to the staff key. */
    method Commit(updated: seq<StaffMember>)
      modifies this, store
      ensures staff == updated && Synced()
      ensures store.items == old(store.items)[StaffKey := StaffList(updated)]
      ensures newStaff == old(newStaff) && editor == old(editor)
      ensures searchTerm == old(searchTerm) && filterRole == old(filterRole)
    {
      staff := updated;
      var _ := SaveStaffData(store, updated);
    }

    method SetNewStaff(form: StaffMember)
      modifies this
      ensures newStaff == form
      ensures staff == old(staff) && editor == old(editor)
      ensures searchTerm == old(searchTerm) && filterRole == old(filterRole)
    {
      newStaff := form;
    }

    method SetSearch(term: string, role: string)
      modifies this
      ensures searchTerm == term && filterRole == role
      ensures staff == old(staff) && newStaff == old(newStaff) && editor == old(editor)
    {
      searchTerm := term;
      filterRole := role;
    }

    /** handleAddStaff: on success the list gains the member, is stored, and
        the form is cleared; on rejection nothing changes. */
    method HandleAddStaff(id: string, createdAt: string) returns (outcome: AddResult)
      modifies this, store
      ensures outcome == AddStaff(old(staff), old(newStaff), id, createdAt)
      ensures outcome.Added? ==> staff == outcome.staff && Synced() && newStaff == EmptyForm(createdAt)
                                 && store.items == old(store.items)[StaffKey := StaffList(outcome.staff)]
      ensures !outcome.Added? ==> staff == old(staff) && newStaff == old(newStaff) && store.items == old(store.items)
      ensures editor == old(editor) && searchTerm == old(searchTerm) && filterRole == old(filterRole)
    {
      if newStaff.name == "" || newStaff.email == "" || newStaff.username == "" || newStaff.password == ""
         || newStaff.hourlyRate == "" {
        return FillRequiredFields;
      }
      var usernameExists := false;
      var i := 0;
      while i < |staff|
        invariant 0 <= i <= |staff|
        invariant usernameExists <==> exists j :: 0 <= j < i && staff[j].username == newStaff.username
      {
        if staff[i].username == newStaff.username {
          usernameExists := true;
        }
        i := i + 1;
      }
      if usernameExists {
        return UsernameExists;
      }
      var member := newStaff.(id := id, createdAt := createdAt);
      Commit(staff + [member]);
      newStaff := EmptyForm(createdAt);
      outcome := Added(staff);
    }

    /** handleEditRate: opens the editor on a member with its current rate. */
    method HandleEditRate(memberId: string, currentRate: string)
      modifies this
      ensures editor == old(editor).(member := Some(memberId), rate := currentRate)
      ensures staff == old(staff) && newStaff == old(newStaff)
      ensures searchTerm == old(searchTerm) && filterRole == old(filterRole)
    {
      editor := editor.(member := Some(memberId), rate := currentRate);
    }

    /** handleEditMember: opens the editor with the member's rate, approver
        and role ('standard' when it has none). */
    method HandleEditMember(member: StaffMember)
      modifies this
      ensures editor == Editor(Some(member.id), member.hourlyRate, member.approver,
                               if member.role == "" then "standard" else member.role)
      ensures staff == old(staff) && newStaff == old(newStaff)
      ensures searchTerm == old(searchTerm) && filterRole == old(filterRole)
    {
      editor := Editor(Some(member.id), member.hourlyRate, member.approver,
                       if member.role == "" then "standard" else member.role);
    }

    method SetEditorValues(rate: string, approver: string, role: string)
      modifies this
      ensures editor == old(editor).(rate := rate, approver := approver, role := role)
      ensures staff == old(staff) && newStaff == old(newStaff)
      ensures searchTerm == old(searchTerm) && filterRole == old(filterRole)
    {
      editor := editor.(rate := rate, approver := approver, role := role);
    }

    /** handleCancelEdit. */
    method HandleCancelEdit()
      modifies this
      ensures editor == ClosedEditor
      ensures staff == old(staff) && newStaff == old(newStaff)
      ensures searchTerm == old(searchTerm) && filterRole == old(filterRole)
    {
      editor := ClosedEditor;
    }

    /** handleCancelApproverEdit: closes the editor and clears its approver,
        keeping the rate and role it holds. */
    method HandleCancelApproverEdit()
      modifies this
      ensures editor == old(editor).(member := None, approver := "")
      ensures staff == old(staff) && newStaff == old(newStaff)
      ensures searchTerm == old(searchTerm) && filterRole == old(filterRole)
    {
      editor := editor.(member := None, approver := "");
    }

    /** handleSaveRate:a valid rate is stored on the member and closes the
        rate editor; an invalid one changes nothing. */
    method HandleSaveRate(memberId: string)
      modifies this, store
      ensures var r := SaveRate(old(staff), memberId, old(editor).rate);
              if r.Some?
              then staff == r.value && Synced() && store.items == old(store.items)[StaffKey := StaffList(r.value)]
                   && editor == old(editor).(member := None, rate := "")
              else staff == old(staff) && store.items == old(store.items) && editor == old(editor)
      ensures newStaff == old(newStaff) && searchTerm == old(searchTerm) && filterRole == old(filterRole)
    {
      var rate := NormalizedRate(editor.rate);
      if rate.None? {
        return;
      }
      Commit(MapById(staff, memberId, SetRate(rate.value)));
      editor := editor.(member := None, rate := "");
    }

    /** handleSaveMember: a valid rate is stored with the approver and role
        on the member and closes the editor; an invalid one changes nothing. */
    method HandleSaveMember(memberId: string)
      modifies this, store
      ensures var r := SaveMember(old(staff), memberId, old(editor).rate, old(editor).approver, old(editor).role);
              if r.Some?
              then staff == r.value && Synced() && store.items == old(store.items)[StaffKey := StaffList(r.value)]
                   && editor == ClosedEditor
              else staff == old(staff) && store.items == old(store.items) && editor == old(editor)
      ensures newStaff == old(newStaff) && searchTerm == old(searchTerm) && filterRole == old(filterRole)
    {
      var rate := NormalizedRate(editor.rate);
      if rate.None? {
        return;
      }
      Commit(MapById(staff, memberId, SetDetails(rate.value, editor.approver, editor.role)));
      editor := ClosedEditor;
    }

    /** handleDeleteStaff (the confirmation is taken as given). */
    method HandleDeleteStaff(id: string)
      modifies this, store
      ensures staff == DeleteStaff(old(staff), id) && Synced()
      ensures store.items == old(store.items)[StaffKey := StaffList(staff)]
      ensures newStaff == old(newStaff) && editor == old(editor)
      ensures searchTerm == old(searchTerm) && filterRole == old(filterRole)
    {
      Commit(DeleteStaff(staff, id));
    }

    /** handleToggleActive. */
    method HandleToggleActive(id: string)
      modifies this, store
      ensures staff == ToggleActiveById(old(staff), id) && Synced()
      ensures store.items == old(store.items)[StaffKey := StaffList(staff)]
      ensures newStaff == old(newStaff) && editor == old(editor)
      ensures searchTerm == old(searchTerm) && filterRole == old(filterRole)
    {
      Commit(ToggleActiveById(staff, id));
    }

    /** handleResetData: the default staff, stored and shown. */
    method HandleResetData()
      modifies this, store
      ensures staff == DefaultStaff() && Synced()
      ensures store.items == old(store.items)[StaffKey := StaffList(DefaultStaff())]
      ensures newStaff == old(newStaff) && editor == old(editor)
      ensures searchTerm == old(searchTerm) && filterRole == old(filterRole)
    {
      Commit(DefaultStaff());
    }
  }
}
