/** The browser's local key-value store, which holds all persistent state, and
    the typed reads the program performs on it. A value is kept as the record
    it was written from (JSON.stringify then JSON.parse is the identity on
    these records). */
module Storage {
  import opened Common
  import opened Dicts
  import opened Records

  const StaffKey := "rookiesTimeStaff"
  const CurrentUserKey := "currentUser"
  const TimesheetsKey := "rookiesTimeTimesheets"

  /** What a key can hold. */
  datatype Value =
    | StaffList(members: seq<StaffMember>)
    | UserRecord(user: StaffMember)
    | LedgerMap(ledger: Ledger)
    | SheetData(sheet: Timesheet)

  type Items = map<string, Value>

  /** localStorage. Every write replaces the whole value of one key. */
  class LocalStorage {
    var items: Items

    constructor (initial: Items)
      ensures items == initial
    {
      items := initial;
    }

    method SetItem(key: string, value: Value)
      modifies this
      ensures items == old(items)[key := value]
    {
      items := items[key := value];
    }

    method RemoveItem(key: string)
      modifies this
      ensures items == old(items) - {key}
    {
      items := items - {key};
    }

    method Clear()
      modifies this
      ensures items == map[]
    {
      items := map[];
    }
  }

  /** `JSON.parse(getItem('rookiesTimeStaff'))`, null when the key is absent
      or does not hold a staff list. */
  function StoredStaff(items: Items): (r: Option<seq<StaffMember>>)
    ensures r.Some? <==> StaffKey in items && items[StaffKey].StaffList?
    ensures r.Some? ==> r.value == items[StaffKey].members
  {
    if StaffKey in items && items[StaffKey].StaffList? then Some(items[StaffKey].members) else None
  }

  /** A staff list written under the staff key is the list read back. */
  lemma StoredStaffReadBack(items: Items, members: seq<StaffMember>)
    ensures StoredStaff(items[StaffKey := StaffList(members)]) == Some(members)
  {
  }

  /** `JSON.parse(getItem('rookiesTimeStaff') || '[]')`. */
  function StoredStaffOrEmpty(items: Items): (r: seq<StaffMember>)
    ensures StoredStaff(items).None? ==> r == []
    ensures StoredStaff(items).Some? ==> r == StoredStaff(items).value
  {
    StoredStaff(items).GetOr([])
  }

  /** `JSON.parse(getItem('rookiesTimeTimesheets') || '{}')`. */
  function StoredLedger(items: Items): (r: Ledger)
    ensures TimesheetsKey !in items ==> r == []
    ensures TimesheetsKey in items && items[TimesheetsKey].LedgerMap? ==> r == items[TimesheetsKey].ledger
  {
    if TimesheetsKey in items && items[TimesheetsKey].LedgerMap? then items[TimesheetsKey].ledger else []
  }

  /** A ledger written under the timesheets key is the ledger read back. */
  lemma StoredLedgerReadBack(items: Items, ledger: Ledger)
    ensures StoredLedger(items[TimesheetsKey := LedgerMap(ledger)]) == ledger
  {
  }

  /** The timesheet stored under a per-user key, if any. */
  function StoredSheet(items: Items, key: string): (r: Option<Timesheet>)
    ensures r.Some? <==> key in items && items[key].SheetData?
    ensures r.Some? ==> r.value == items[key].sheet
  {
    if key in items && items[key].SheetData? then Some(items[key].sheet) else None
  }

  /** A week written under a key is the week read back from it. */
  lemma StoredSheetReadBack(items: Items, key: string, sheet: Timesheet)
    ensures StoredSheet(items[key := SheetData(sheet)], key) == Some(sheet)
  {
  }
}
