/** The employee dashboard (src/components/Dashboard.js): editing a day of
    the week's timesheet recomputes that day's total, the week total is read
    back from the day totals, saving writes the user's copy and a ledger entry
    with the user's name and role, export is reserved to admins and
    approvers, and a staff update refreshes the stored session record. */
module Dashboard {
  import opened Common
  import opened Decimal
  import opened Dicts
  import opened Records
  import opened Storage
  import opened TimeUtils
  import opened StaffData

  // ------------------------------------------------------------- day totals

  /** The day total text handleTimeChange writes once start and end are set:
      the worked hours with two decimals and an "h", or empty when they are
      not positive. */
  function ComputedTotal(d: DayEntry): (s: string)
    ensures d.start.At? && d.end.At? ==> (s == "" <==> CalculateDayTotal(d) == 0.0)
    ensures s != "" ==> ParseFloat(RemoveFirstH(s)) == Finite(Round2(CalculateDayTotal(d)))
  {
    var totalHours := WorkedHours(d);
    if d.start.At? && d.end.At? && totalHours > 0.0 then
      HoursTextRoundTrip(totalHours);
      FormatFixed2(totalHours) + "h"
    else ""
  }

  /** The four clock fields of a day. */
  datatype TimeSlot = Start | End | LunchOut | LunchIn

  /** One change made on the form: a clock field or the notes of a day. */
  datatype Edit = SetTime(slot: TimeSlot, value: TimeField) | SetNotes(text: string)

  /** `{ ...day, [field]: value }`. */
  function EditDay(d: DayEntry, e: Edit): DayEntry {
    match e
    case SetTime(Start, v) => d.(start := v)
    case SetTime(End, v) => d.(end := v)
    case SetTime(LunchOut, v) => d.(lunchOut := v)
    case SetTime(LunchIn, v) => d.(lunchIn := v)
    case SetNotes(text) => d.(notes := text)
  }

  /** The total is recomputed only when start and end are both set;
      otherwise the previous total stays. */
  function Retotal(d: DayEntry): (r: DayEntry)
    ensures r.(total := d.total) == d
    ensures d.start.At? && d.end.At? ==> r.total == ComputedTotal(d)
    ensures d.start.Blank? || d.end.Blank? ==> r == d
  {
    if d.start.At? && d.end.At? then d.(total := ComputedTotal(d)) else d
  }

  /** handleTimeChange on the timesheet (a day the sheet lacks starts empty). */
  function ApplyEdit(t: Timesheet, day: string, e: Edit): Timesheet {
    Put(t, day, Retotal(EditDay(Lookup(t, day).GetOr(BlankDay), e)))
  }

  /** An edit touches only its own day: that day gets the edited field, its
      total is recomputed when start and end are set and left as it was
      otherwise, and every other day keeps its entry. */
  lemma ApplyEditEffect(t: Timesheet, day: string, e: Edit)
    ensures Lookup(ApplyEdit(t, day, e), day) == Some(Retotal(EditDay(Lookup(t, day).GetOr(BlankDay), e)))
    ensures forall k :: k != day ==> Lookup(ApplyEdit(t, day, e), k) == Lookup(t, k)
    ensures day in Keys(t) ==> Keys(ApplyEdit(t, day, e)) == Keys(t)
  {
    PutKeys(t, day, Retotal(EditDay(Lookup(t, day).GetOr(BlankDay), e)));
  }

  /** The edited day differs from the old one in the edited field and in a
      total recomputed when start and end are set; with either missing the
      old total stays. */
  lemma EditedDay(before: DayEntry, e: Edit)
    ensures var after := Retotal(EditDay(before, e));
            after.(total := before.total) == EditDay(before, e)
            && (after.start.At? && after.end.At? ==> after.total == ComputedTotal(EditDay(before, e)))
            && (after.start.Blank? || after.end.Blank? ==> after.total == before.total)
  {
    EditDayKeepsTotal(before, e);
  }

  lemma EditDayKeepsTotal(d: DayEntry, e: Edit)
    ensures EditDay(d, e).total == d.total
  {
  }

  /** 09:00 to 17:00 with lunch from 12:00 to 13:00 is "7.00h". */
  lemma SevenHourDay()
    ensures ComputedTotal(DayEntry(At(540), At(1020), At(720), At(780), "", "")) == "7.00h"
  {
    var d := DayEntry(At(540), At(1020), At(720), At(780), "", "");
    assert WorkedHours(d) == 7.0;
    assert RoundHundredths(7.0) == 700;
    assert NatToString(7) == "7";
    assert FixedString(700) == "7" + "." + "00";
  }

  /** A day that ends before it starts gets an empty total, not a negative one. */
  lemma NonPositiveDayIsBlank(d: DayEntry)
    requires d.start.At? && d.end.At? && WorkedHours(d) <= 0.0
    ensures ComputedTotal(d) == "" && Retotal(d).total == ""
  {
  }

  // -------------------------------------------------------------- week total

  /** A day whose total text is the one its times give (empty without both
      a start and an end). */
  predicate TotalCurrent(d: DayEntry) {
    d.total == if d.start.At? && d.end.At? then ComputedTotal(d) else ""
  }

  predicate AllCurrent(t: Timesheet) {
    forall i :: 0 <= i < |t| ==> TotalCurrent(t[i].value)
  }

  /** The day totals rounded to hundredths, in order. */
  function RoundedDayTotals(t: Timesheet): (hs: seq<real>)
    ensures |hs| == |t|
  {
    seq(|t|, i requires 0 <= i < |t| => Round2(CalculateDayTotal(t[i].value)))
  }

  lemma DayHoursOfCurrent(d: DayEntry)
    requires TotalCurrent(d)
    ensures DayHours(d) == Finite(Round2(CalculateDayTotal(d)))
  {
    if d.total == "" {
      if d.start.At? && d.end.At? {
        assert CalculateDayTotal(d) == 0.0;
      }
      assert Round2(0.0) == 0.0;
    }
  }

  /** When every total is current, the week total is a number: the sum of
      the day totals, each rounded to hundredths by its "0.00h" text. */
  lemma WeekTotalOfCurrentSheet(t: Timesheet)
    requires AllCurrent(t)
    ensures WeekTotal(t) == Finite(SumReals(RoundedDayTotals(t)))
  {
    var hs, rs := DayValues(t), RoundedDayTotals(t);
    forall i | 0 <= i < |t|
      ensures hs[i] == Finite(rs[i])
    {
      DayHoursOfCurrent(t[i].value);
    }
    SumFinite(hs, rs);
  }

  /** A fresh week is current. */
  lemma EmptyTimesheetCurrent()
    ensures AllCurrent(EmptyTimesheet())
  {
  }

  /** An edit keeps every total current exactly when the edited day still has
      start and end, or its total was empty: clearing the start or the end of
      a day with hours leaves its old total behind. */
  lemma ApplyEditCurrent(t: Timesheet, day: string, e: Edit)
    requires DistinctKeys(t) && AllCurrent(t) && day in Keys(t)
    ensures var after := Lookup(ApplyEdit(t, day, e), day).value;
            AllCurrent(ApplyEdit(t, day, e)) <==>
              (after.start.At? && after.end.At?) || Lookup(t, day).value.total == ""
  {
    var i :| 0 <= i < |t| && Keys(t)[i] == day;
    LookupSlot(t, i);
    var before := t[i].value;
    var newDay := Retotal(EditDay(before, e));
    PutPresentReplaces(t, i, newDay);
    ApplyEditEffect(t, day, e);
    AllCurrentUpdate(t, i, Slot(day, newDay));
    RetotalCurrent(before, e);
  }

  lemma AllCurrentUpdate(t: Timesheet, i: nat, s: Slot<DayEntry>)
    requires AllCurrent(t) && i < |t|
    ensures AllCurrent(t[i := s]) <==> TotalCurrent(s.value)
  {
    assert t[i := s][i] == s;
  }

  /** The text total ignores the total field it will replace. */
  lemma ComputedTotalIgnoresTotal(d: DayEntry, x: string)
    ensures ComputedTotal(d.(total := x)) == ComputedTotal(d)
  {
    assert WorkedHours(d.(total := x)) == WorkedHours(d);
  }

  lemma RetotalCurrent(before: DayEntry, e: Edit)
    requires TotalCurrent(before)
    ensures var after := Retotal(EditDay(before, e));
            TotalCurrent(after) <==> (after.start.At? && after.end.At?) || before.total == ""
  {
    var edited := EditDay(before, e);
    EditDayKeepsTotal(before, e);
    if edited.start.At? && edited.end.At? {
      ComputedTotalIgnoresTotal(edited, ComputedTotal(edited));
    }
  }

  // ------------------------------------------------------------ export rule

  /** `isAdmin || isApprover`. */
  predicate CanExport(user: Option<StaffMember>) {
    user.Some? && (user.value.role == "admin" || user.value.role == "approver")
  }

  datatype ExportResult = Exported(exportedBy: string, timesheets: Ledger) | ExportDenied

  /** handleExport: admins and approvers get the whole ledger; anyone else,
      and nobody logged in, is refused. */
  function Export(user: Option<StaffMember>, items: Items): (r: ExportResult)
    ensures r.Exported? <==> CanExport(user)
    ensures r.Exported? ==> r.exportedBy == user.value.username && r.timesheets == StoredLedger(items)
  {
    if CanExport(user) then Exported(user.value.username, StoredLedger(items)) else ExportDenied
  }

  /** A standard user is never allowed to export. */
  lemma StandardCannotExport(user: StaffMember, items: Items)
    requires user.role == "standard"
    ensures Export(Some(user), items) == ExportDenied
  {
  }

  // ---------------------------------------------------------- session refresh

  /** The position of the first member with the id (|staff| if none). */
  function FirstWithId(staff: seq<StaffMember>, id: string): (i: nat)
    ensures i <= |staff|
    ensures i < |staff| ==> staff[i].id == id
    ensures forall j :: 0 <= j < i ==> staff[j].id != id
  {
    if staff == [] || staff[0].id == id then 0 else 1 + FirstWithId(staff[1..], id)
  }

  /** `staff.find(member => member.id === id)`. */
  function FindById(staff: seq<StaffMember>, id: string): (r: Option<StaffMember>)
    ensures r.None? <==> forall m :: m in staff ==> m.id != id
    ensures r.Some? ==> r.value in staff && r.value.id == id
    ensures r.Some? <==> FirstWithId(staff, id) < |staff|
    ensures r.Some? ==> r.value == staff[FirstWithId(staff, id)]
  {
    var i := FirstWithId(staff, id);
    if i < |staff| then Some(staff[i]) else None
  }

  /** The record a staff update puts in the session: the stored member with
      the logged-in user's id, if there is still one. */
  function RefreshedUser(items: Items, user: Option<StaffMember>): (r: Option<StaffMember>)
    ensures user.None? ==> r.None?
    ensures r.Some? ==> r.value in StoredStaffOrEmpty(items) && r.value.id == user.value.id
    ensures user.Some? ==>
              var staff := StoredStaffOrEmpty(items);
              (r.Some? <==> exists m :: m in staff && m.id == user.value.id)
              && (r.Some? ==> r.value == staff[FirstWithId(staff, user.value.id)])
  {
    if user.None? then None else FindById(StoredStaffOrEmpty(items), user.value.id)
  }

  // ------------------------------------------------------------- the screen

  /** The dashboard of one logged-in user (or of nobody). */
  class DashboardView {
    const currentUser: Option<StaffMember>
    const store: LocalStorage
    var timesheet: Timesheet
    var weekTotal: Num

    /** The shown week total is the one the shown timesheet gives. */
    predicate Valid()
      reads this
    {
      weekTotal == WeekTotal(timesheet)
    }

    /** Mounting: an empty week, replaced by the user's saved week if there is one. */
    constructor (store: LocalStorage, currentUser: Option<StaffMember>, weekKey: string)
      ensures this.store == store && this.currentUser == currentUser && Valid()
      ensures var saved := if currentUser.Some?
                           then StoredSheet(store.items, TimesheetKey(currentUser.value.username, weekKey))
                           else None;
              timesheet == if saved.Some? then saved.value else EmptyTimesheet()
    {
      this.store := store;
      this.currentUser := currentUser;
      timesheet := EmptyTimesheet();
      weekTotal := Finite(0.0);
      new;
      LoadTimesheetData(weekKey);
    }

    /** loadTimesheetData: takes the user's saved week when there is one and
        otherwise keeps the timesheet shown. */
    method LoadTimesheetData(weekKey: string)
      modifies this
      ensures Valid()
      ensures var saved := if currentUser.Some?
                           then StoredSheet(store.items, TimesheetKey(currentUser.value.username, weekKey))
                           else None;
              timesheet == if saved.Some? then saved.value else old(timesheet)
    {
      if currentUser.Some? {
        var saved := StoredSheet(store.items, TimesheetKey(currentUser.value.username, weekKey));
        if saved.Some? {
          timesheet := saved.value;
        }
      }
      CalculateWeekTotal();
    }

    /** calculateWeekTotal, run whenever the timesheet changes. */
    method CalculateWeekTotal()
      modifies this
      ensures timesheet == old(timesheet) && Valid()
    {
      weekTotal := TimeUtils.CalculateWeekTotal(timesheet);
    }

    /** handleTimeChange, followed by the week total it triggers. */
    method HandleTimeChange(day: string, e: Edit)
      modifies this
      ensures timesheet == ApplyEdit(old(timesheet), day, e) && Valid()
    {
      var dayData := EditDay(Lookup(timesheet, day).GetOr(BlankDay), e);
      if dayData.start.At? && dayData.end.At? {
        dayData := dayData.(total := ComputedTotal(dayData));
      }
      timesheet := Put(timesheet, day, dayData);
      CalculateWeekTotal();
    }

    /** handleSave: with a user, writes the week under the user's key and the
        ledger entry with name and role under the same key; without one,
        writes nothing. */
    method HandleSave(weekKey: string, savedAt: string)
      modifies store
      ensures currentUser.None? ==> store.items == old(store.items)
      ensures currentUser.Some? ==>
                store.items == RecordTimesheet(old(store.items), currentUser.value.username, weekKey,
                                 LedgerEntry(currentUser.value.username, Some(currentUser.value.name),
                                             Some(currentUser.value.role), weekKey, timesheet, savedAt))
    {
      if currentUser.Some? {
        var user := currentUser.value;
        var saveKey := TimesheetKey(user.username, weekKey);
        TimesheetKeyNotReserved(user.username, weekKey);
        store.SetItem(saveKey, SheetData(timesheet));
        var allTimesheets := StoredLedger(store.items);
        allTimesheets := Put(allTimesheets, saveKey,
                             LedgerEntry(user.username, Some(user.name), Some(user.role), weekKey, timesheet, savedAt));
        store.SetItem(TimesheetsKey, LedgerMap(allTimesheets));
      }
    }

    /** handleSubmit: exactly handleSave (the confirmation box aside). */
    method HandleSubmit(weekKey: string, savedAt: string)
      modifies store
      ensures currentUser.None? ==> store.items == old(store.items)
      ensures currentUser.Some? ==>
                store.items == RecordTimesheet(old(store.items), currentUser.value.username, weekKey,
                                 LedgerEntry(currentUser.value.username, Some(currentUser.value.name),
                                             Some(currentUser.value.role), weekKey, timesheet, savedAt))
    {
      HandleSave(weekKey, savedAt);
    }

    /** handleExport: what is handed to the download, or the refusal. */
    method HandleExport() returns (r: ExportResult)
      ensures r == Export(currentUser, store.items)
    {
      r := Export(currentUser, store.items);
    }

    /** The staff-update listener: rewrites the stored session record from
        the staff list when the user is still in it; otherwise writes nothing. */
    method OnStaffDataUpdated()
      modifies store
      ensures RefreshedUser(old(store.items), currentUser).Some? ==>
                store.items == old(store.items)[CurrentUserKey := UserRecord(RefreshedUser(old(store.items), currentUser).value)]
      ensures RefreshedUser(old(store.items), currentUser).None? ==> store.items == old(store.items)
    {
      if currentUser.Some? {
        var savedStaff := StoredStaffOrEmpty(store.items);
        var updatedUser := FindById(savedStaff, currentUser.value.id);
        if updatedUser.Some? {
          store.SetItem(CurrentUserKey, UserRecord(updatedUser.value));
        }
      }
    }
  }
}
