/** The records the application keeps in browser storage: staff members, the
    day entries of a weekly timesheet and the ledger entries written on save. */
module Records {
  import opened Common
  import opened Dicts

  /** A clock time, as minutes since midnight ("HH:MM" is 60 * HH + MM). */
  type Minute = m: int | 0 <= m < 1440

  /** A time field of a day entry: empty, or a clock time. */
  datatype TimeField = Blank | At(minute: Minute)

  /** One day of a timesheet. `total` is the text the dashboard derives from
      the four time fields ("7.00h" or empty). */
  datatype DayEntry = DayEntry(
    start: TimeField,
    end: TimeField,
    lunchOut: TimeField,
    lunchIn: TimeField,
    total: string,
    notes: string)

  /** A day entry with every field empty. */
  const BlankDay := DayEntry(Blank, Blank, Blank, Blank, "", "")

  /** A week's timesheet: day name -> day entry, in insertion order. */
  type Timesheet = Dict<DayEntry>

  /** A saved timesheet as the global ledger records it. `name` and `role`
      are absent when the entry was written by the utility save function. */
  datatype LedgerEntry = LedgerEntry(
    username: string,
    name: Option<string>,
    role: Option<string>,
    weekKey: string,
    data: Timesheet,
    savedAt: string)

  /** The ledger: storage key of a timesheet -> ledger entry. */
  type Ledger = Dict<LedgerEntry>

  /** A staff member. Text fields that a record lacks are the empty string;
      `approver` names another member by username; `hourlyRate` is decimal
      text; a record without `mustChangePassword` has it false. */
  datatype StaffMember = StaffMember(
    id: string,
    name: string,
    email: string,
    username: string,
    password: string,
    role: string,
    approver: string,
    hourlyRate: string,
    isActive: bool,
    createdAt: string,
    mustChangePassword: bool)
}
