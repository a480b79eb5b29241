# Rookies Time — a Dafny model of the timesheet and staff core

Rookies Time is a browser application for a small team. Staff log in and fill in a
weekly timesheet: start, end and lunch times for each day. The dashboard turns those
times into a day total such as "7.00h" and adds the day totals into a week total.
Saving writes the week under a per-user key. It also adds an entry to a ledger of
saved timesheets. Administrators manage the staff list: they add members, edit rates,
roles and approvers, toggle members active and delete them. A weekly summary reads
the ledger and the staff rates and shows hours, rate and cost per entry, sorted by
name, with grand totals. All state lives in the browser's local key-value store.

The model has one module per source file. Each module has the form the file has:

- `TimeUtils` models `src/utils/timeUtils.js` and `StaffData` models
  `src/utils/staffData.js`. These hold the pure computations, as functions and
  lemmas. The loops become methods proved against those functions.
- `Dashboard`, `StaffManager` and `Login` model the screens, and `AppState` models
  `src/hooks/useAppState.js`. Each has its pure rules as functions, plus a class
  whose fields are the component's state. The class's methods are the event
  handlers, and they update those fields and the store in place.
- `Reports` models the weekly summary. Its loops are methods proved against a
  function-level specification: the entries filtered by week, mapped to rows, then
  sorted.

Several modules are shared by all of these:

- `Common`: options; JavaScript numbers as finite values or NaN; running sums;
  `filter` and `map`.
- `Decimal`: `toFixed(2)` and `parseFloat` on decimal text.
- `Dicts`: plain objects as insertion-ordered association lists.
- `Records`: the stored records.
- `Storage`: `localStorage` as a class over a map, with the typed reads the program
  performs.

Where the program's behaviour is surprising, the model follows the code:

- A Sunday is filed under the following Monday's week key (`TimeUtils.SameWeekKey`).
- `validateLogin` looks only at the first member with a username. The login screen
  accepts any active member with matching credentials. So with duplicate usernames
  the two can disagree (`Login.DuplicateUsernamesDisagree`).
- Clearing the start or end of a day keeps the day's old total
  (`Dashboard.ApplyEditCurrent`).
- `saveTimesheetData` writes ledger entries without name and role, though
  nothing in the program calls it. The summary's `localeCompare` sort would
  throw on such an entry when it is the left operand, and compare against
  the text "undefined" when it is the right one; the model sorts it as if its
  name were empty (see "## Left out").

The clock is a parameter throughout:

- The current date is a day number (day 0 is Thursday 1 January 1970).
- The current week's key and every timestamp are passed in as text.
- New member ids are passed in as text.

## Model

| member | source | states |
|---|---|---|
| Common.SumAppend | src/utils/timeUtils.js:70-78 | a running `+=` sum over two runs of terms is the sum of the two sums |
| Common.SumFinite | src/utils/timeUtils.js:70-78 | a sum of numbers is a number exactly when every term is, and then equals the sum of the terms' values (one NaN poisons the total) |
| Common.Filter | src/utils/staffData.js:104 | `filter` keeps exactly the elements satisfying the test, never more than the input |
| Common.FilterAppend | src/components/StaffManager.js:267 | filtering a concatenation filters each part, so kept elements keep their relative order |
| Common.FilterKeepsAll | src/components/Login.js:33 | filtering a list whose every element passes returns the list unchanged |
| Common.MapAppend | src/components/Reports.js:23-40 | mapping a concatenation maps each part in turn |
| Common.MapCons | src/components/Reports.js:23-40 | mapping a list maps its first element, then the rest |
| Common.SumCons | src/components/Reports.js:46-51 | a running sum is its first term plus the sum of the others |
| Common.SumRealsCons | src/components/Reports.js:46-51 | the same for sums of plain numbers |
| Decimal.ParseFloat | src/utils/timeUtils.js:74 | `parseFloat` gives NaN on empty text, a non-negative number when the text starts with a digit, and a negative number only after a leading '-' |
| Decimal.ScanNumber | src/utils/timeUtils.js:74 | the unsigned scan yields a non-negative number, and always a number once a digit has been read |
| Decimal.ScanDigits | src/utils/timeUtils.js:74 | scanning past a run of digits accumulates their decimal value |
| Decimal.ScanFraction | src/utils/timeUtils.js:74 | a point followed by digits and a non-digit adds the fraction those digits denote |
| Decimal.ParseDecimalText | src/utils/timeUtils.js:74 | `parseFloat` of "digits.digits" followed by non-digit text is the integer part plus the fraction |
| Decimal.NatToStringValue | src/components/Dashboard.js:112 | the digits written for n read back as n |
| Decimal.RemoveFirstH | src/utils/timeUtils.js:74 | `replace('h', '')` leaves text without 'h' alone and otherwise removes exactly one character |
| Decimal.RemoveFirstHOfSuffixed | src/components/Dashboard.js:112 | removing the 'h' from text without 'h' plus "h" gives back the text |
| Decimal.FixedString | src/components/Dashboard.js:112 | the two-decimal text of a hundredth count has no 'h', at least four characters and the point third from the end |
| Decimal.RoundHundredths | src/components/Dashboard.js:112 | `toFixed(2)` rounds 100x to the nearest integer, halves away from zero |
| Decimal.RoundHundredthsExact | src/components/StaffManager.js:154 | a value that already has two decimals rounds to itself |
| Decimal.Round2 | src/components/Reports.js:37 | `+x.toFixed(2)` is a whole number of hundredths within half a hundredth of x |
| Decimal.RoundNum | src/components/Reports.js:39 | rounding keeps NaN as NaN and rounds a number to hundredths as `Round2` does |
| Decimal.FormatFixed2 | src/components/Dashboard.js:112 | `toFixed(2)` of a non-negative value starts with a digit, has no 'h' and at least four characters |
| Decimal.ParseFixedString | src/components/Dashboard.js:123 | reading back the two-decimal text of c hundredths gives exactly c/100 |
| Decimal.HoursTextRoundTrip | src/components/Dashboard.js:112 | writing hours as "x.xxh" and reading them back with the 'h' removed gives the hours rounded to hundredths |
| Dicts.Values | src/components/Reports.js:23 | `Object.values` lists the values in key order |
| Dicts.Lookup | src/components/Dashboard.js:92 | `obj[key]` is absent exactly when the key is not a key of the object, and otherwise is the value of a slot with that key |
| Dicts.Put | src/components/Dashboard.js:89-95 | after `obj[key] = value` the key gives the value and every other key gives what it gave before |
| Dicts.PutKeys | src/components/Dashboard.js:89-95 | assignment keeps the key order and appends only a key that was absent |
| Dicts.PutKeepsDistinct | src/components/Dashboard.js:160 | assignment keeps an object's keys distinct |
| Dicts.PutAbsentAppends | src/utils/timeUtils.js:89 | assigning a new key appends one slot at the end |
| Dicts.PutPresentReplaces | src/components/Dashboard.js:89-95 | assigning an existing key replaces its slot in place |
| Dicts.LookupSlot | src/components/Dashboard.js:92 | in a well-formed object every slot is what lookup finds under its key |
| TimeUtils.CalculateHours | src/utils/timeUtils.js:46-52 | zero when either time is empty; otherwise the minutes between the times over 60, negative exactly when the end is earlier |
| TimeUtils.LunchHours | src/utils/timeUtils.js:61-64 | the lunch break counts only when both lunch times are set |
| TimeUtils.CalculateDayTotal | src/utils/timeUtils.js:55-67 | never negative; zero without start and end; otherwise the span less lunch when that is positive |
| TimeUtils.LunchIgnoredUnlessBoth | src/utils/timeUtils.js:61-64 | with a lunch time missing the day total is the bare span, whatever the other lunch field holds |
| TimeUtils.DayHours | src/utils/timeUtils.js:73-74 | a day with an empty total adds zero to the week |
| TimeUtils.WeekTotalAppend | src/utils/timeUtils.js:70-78 | the week total of two runs of days is the sum of their totals |
| TimeUtils.WeekTotalFinite | src/utils/timeUtils.js:70-78 | the week total is a number exactly when every day's total text parses |
| TimeUtils.CalculateWeekTotal | src/utils/timeUtils.js:70-78 | the loop's result is the ordered sum of the days' parsed totals |
| TimeUtils.DayNames | src/utils/timeUtils.js:81 | seven distinct day names |
| TimeUtils.BlankDays | src/utils/timeUtils.js:84-100 | each given name mapped to an empty day, in order |
| TimeUtils.BlankDaysKeys | src/utils/timeUtils.js:84-100 | distinct names give a well-formed week whose keys are those names |
| TimeUtils.EmptyTimesheet | src/utils/timeUtils.js:84-100 | the empty week has the seven day names as keys, Monday first, each day empty |
| TimeUtils.EmptyTimesheetTotal | src/utils/timeUtils.js:84-100 | an empty week totals zero |
| TimeUtils.CreateEmptyTimesheet | src/utils/timeUtils.js:84-100 | the loop builds the empty week |
| TimeUtils.FillBlankDays | src/utils/timeUtils.js:88-97 | assigning an empty day to each distinct name in turn builds those names' blank days |
| TimeUtils.NextDayAppends | src/utils/timeUtils.js:88-97 | filling in the next distinct name extends the prefix built so far by one day |
| TimeUtils.Weekday | src/utils/timeUtils.js:26 | `getDay()` is in 0..6 |
| TimeUtils.WeekStart | src/utils/timeUtils.js:23-28 | the key day is a Monday; a Sunday maps to the next day; any other day to the Monday at most five days earlier |
| TimeUtils.SameWeekKey | src/utils/timeUtils.js:23-28 | the days sharing a Monday's key are exactly that Monday's preceding Sunday through its Saturday |
| TimeUtils.GetCurrentWeekDates | src/utils/timeUtils.js:31-43 | seven consecutive days starting at the week key's Monday |
| TimeUtils.TimesheetKey | src/utils/timeUtils.js:106-108 | the key is "timesheet_", the username, '_' and the week key |
| TimeUtils.TimesheetKeyNotReserved | src/utils/timeUtils.js:106-108 | a timesheet key never equals the staff, session or ledger key |
| TimeUtils.TimesheetKeyInjective | src/utils/timeUtils.js:106-108 | with week keys free of '_', distinct users or weeks get distinct keys |
| TimeUtils.RecordTimesheet | src/utils/timeUtils.js:129-152 | after a save the user's key holds the week, the ledger holds the entry under that key, other ledger entries and other store keys are unchanged |
| TimeUtils.RecordTimesheetKeepsLedgerDistinct | src/utils/timeUtils.js:138-145 | saving keeps the ledger's keys distinct |
| TimeUtils.LoadTimesheetData | src/utils/timeUtils.js:111-126 | the stored week for the user's key, or the empty week when there is none |
| TimeUtils.SaveTimesheetData | src/utils/timeUtils.js:129-152 | writes the week and a ledger entry without name and role, and reports success |
| Storage.StoredStaff | src/utils/staffData.js:70-78 | a staff list is read exactly when the staff key holds one, and it is that list |
| Storage.StoredStaffReadBack | src/utils/staffData.js:70-78 | a list written under the staff key reads back unchanged |
| Storage.StoredStaffOrEmpty | src/components/Dashboard.js:39 | the stored list, or the empty list when there is none |
| Storage.StoredLedger | src/components/Dashboard.js:159 | the ledger the timesheets key holds, and the empty ledger when the key is absent |
| Storage.StoredLedgerReadBack | src/components/Dashboard.js:159 | a ledger written under the timesheets key reads back unchanged |
| Storage.StoredSheet | src/utils/timeUtils.js:115-119 | a week is read exactly when the key holds one, and it is that week |
| Storage.StoredSheetReadBack | src/utils/timeUtils.js:115-119 | a week written under a key reads back unchanged |
| StaffData.DefaultStaffShape | src/utils/staffData.js:2-58 | five seeded members, all active, with distinct ids and usernames; johnsmith/Rookies123! is an admin |
| StaffData.DefaultUsernamesDiffer | src/utils/staffData.js:2-58 | the seeded usernames are distinct |
| StaffData.DefaultIdsDiffer | src/utils/staffData.js:2-58 | the seeded ids are distinct |
| StaffData.DefaultStaffValid | src/utils/staffData.js:2-58 | every seeded member passes validation |
| StaffData.ActiveMembers | src/utils/staffData.js:104 | exactly the active members of the list |
| StaffData.GetActiveStaff | src/utils/staffData.js:102-105 | the active stored members; none when there is no list |
| StaffData.FirstWithUsername | src/utils/staffData.js:110 | the position of the first member with the username, no earlier member having it |
| StaffData.FindByUsername | src/utils/staffData.js:110 | `find` by username returns a member with it exactly when one exists, and then the first such member |
| StaffData.FindUnique | src/utils/staffData.js:108-111 | with unique usernames the member found is the only one with the name |
| StaffData.FindStaffByUsername | src/utils/staffData.js:108-111 | nothing without a stored list; with one, a member exactly when the list holds the username, and then the first member holding it |
| StaffData.AllFieldsRequired | src/utils/staffData.js:115 | every field of a staff record is in the required list |
| StaffData.MissingOfMembers | src/utils/staffData.js:116 | the missing fields are exactly the listed fields the record lacks |
| StaffData.MissingOfAppend | src/utils/staffData.js:116 | the missing fields keep the order of the fields checked |
| StaffData.MissingOfOne | src/utils/staffData.js:116 | one field is reported exactly when it is empty |
| StaffData.MissingOfIsFilter | src/utils/staffData.js:115-119 | the missing-field list is `filter` with the test `!member[field]`: the lacking fields, each once, in the order checked |
| StaffData.ValidateStaffMember | src/utils/staffData.js:114-127 | valid exactly when no field is empty and the rate does not parse negative; missing fields exactly when one is empty, reported as the required list filtered to the empty fields (each once, in the required order); a negative rate otherwise |
| StaffData.MissingFieldsInOrder | src/utils/staffData.js:114-120 | a record lacking name and rate reports exactly those two, name first |
| StaffData.MissingOfExample | src/utils/staffData.js:115-120 | a record lacking name and rate lacks exactly those two of the required fields |
| StaffData.GetCurrentUser | src/utils/staffData.js:133-141 | a session user is read exactly when the session key holds one, and it is that user |
| StaffData.GetCurrentUserReadBack | src/utils/staffData.js:133-141 | a user written under the session key reads back unchanged |
| StaffData.SessionKeyIsSeparate | src/utils/staffData.js:144-163 | writing or removing the session record leaves the staff list and the ledger as they were |
| StaffData.SaveStaffData | src/utils/staffData.js:81-89 | the staff key holds the list and nothing else changes |
| StaffData.InitializeStaffData | src/utils/staffData.js:92-99 | seeds the defaults only when no list is stored, and returns the list in force |
| StaffData.SaveCurrentUser | src/utils/staffData.js:144-152 | the session key holds the user |
| StaffData.ClearCurrentUser | src/utils/staffData.js:155-163 | the session key is removed and nothing else |
| StaffData.ValidateLogin | src/utils/staffData.js:166-182 | success exactly when the member `findStaffByUsername` returns is active and has this password, and then the user is that member; "not found" exactly when no member has the username; "inactive" exactly when that member is inactive; "invalid password" exactly when it is active with another password |
| StaffData.ValidateLoginUnique | src/utils/staffData.js:166-182 | with unique usernames, success exactly when an active member holds these credentials |
| StaffManager.AddStaff | src/components/StaffManager.js:63-90 | rejects exactly an incomplete form, then exactly a username in use; otherwise appends the form with the new id and time |
| StaffManager.AddKeepsUsernamesUnique | src/components/StaffManager.js:71-86 | adding keeps usernames unique, and the new member is what a lookup by its username finds |
| StaffManager.NormalizedRate | src/components/StaffManager.js:146-154 | refused exactly when the text parses to NaN or a negative number; otherwise stored text that reads back as the rate rounded to hundredths |
| StaffManager.NormalizedRateOf | src/components/StaffManager.js:146-154 | a non-negative parsed rate is stored as its two-decimal text |
| StaffManager.NormalizedRateIdempotent | src/components/StaffManager.js:152-156 | saving a stored rate again stores the same text |
| StaffManager.MapById | src/components/StaffManager.js:152-156 | members with the id get the change, all others stay, in place |
| StaffManager.ApplyKeepsIdentity | src/components/StaffManager.js:199-208 | no edit changes a member's id, username or password |
| StaffManager.MapByIdKeepsIdentity | src/components/StaffManager.js:199-208 | edits keep every id, username and password, so unique ids and usernames stay unique |
| StaffManager.SaveRate | src/components/StaffManager.js:145-158 | refused exactly for an invalid rate; otherwise only the members with the id get the two-decimal rate |
| StaffManager.SaveMember | src/components/StaffManager.js:190-213 | refused exactly for an invalid rate; otherwise only the members with the id get rate, approver and role |
| StaffManager.SaveMemberGeneralizesSaveRate | src/components/StaffManager.js:190-213 | saving a member with its own approver and role is saving its rate |
| StaffManager.ToggleActiveById | src/components/StaffManager.js:286-289 | only the members with the id flip their active flag; nothing else changes |
| StaffManager.ToggleTwice | src/components/StaffManager.js:286-289 | toggling twice restores the list |
| StaffManager.DeleteStaff | src/components/StaffManager.js:267 | exactly the members without the id remain |
| StaffManager.DeleteKeepsOrder | src/components/StaffManager.js:267 | survivors keep their relative order |
| StaffManager.DeleteAbsent | src/components/StaffManager.js:267 | deleting an absent id changes nothing |
| StaffManager.DeleteKeepsUsernamesUnique | src/components/StaffManager.js:267 | deleting keeps usernames unique |
| StaffManager.ApproverCandidates | src/components/StaffManager.js:132-138 | exactly the active approvers and admins other than the username being added |
| StaffManager.EditApproverCandidates | src/components/StaffManager.js:257-263 | exactly the active approvers and admins other than the member being edited |
| StaffManager.NeverOwnApprover | src/components/StaffManager.js:257-263 | nobody is offered as their own approver, and every other qualifying member is offered |
| StaffManager.Lower | src/components/StaffManager.js:316-318 | lower-casing keeps the length and lowers each letter |
| StaffManager.IncludesAt | src/components/StaffManager.js:316-318 | `includes` finds text occurring at any position |
| StaffManager.IncludesOccurs | src/components/StaffManager.js:316-318 | `includes` holds only when the text occurs at some position, so with IncludesAt it holds exactly then |
| StaffManager.FilterStaff | src/components/StaffManager.js:315-321 | exactly the members whose name, email or username contains the search text, ignoring case, and whose role matches unless the filter is 'all' |
| StaffManager.FilterStaffShowsAll | src/components/StaffManager.js:315-321 | no search text and 'all' show the whole list in order; a username finds its member |
| StaffManager.RoleDisplayName | src/components/StaffManager.js:323-330 | the three known roles get their labels; any other role shows as itself |
| StaffManager.StaffManagerView.constructor | src/components/StaffManager.js:34-50 | shows a stored non-empty list, otherwise stores and shows the defaults; the form is empty and the filter is 'all' |
| StaffManager.StaffManagerView.Visible | src/components/StaffManager.js:315-321 | the rows shown are the members matching the search and the role filter |
| StaffManager.StaffManagerView.Commit | src/components/StaffManager.js:158-161 | the list shown becomes the new list and the staff key holds it |
| StaffManager.StaffManagerView.SetNewStaff | src/components/StaffManager.js:55-61 | typing changes only the add form |
| StaffManager.StaffManagerView.SetSearch | src/components/StaffManager.js:22-23 | changes only the search text and the role filter |
| StaffManager.StaffManagerView.HandleAddStaff | src/components/StaffManager.js:63-130 | on success the list gains the member, is stored, and the form is cleared; on rejection nothing changes |
| StaffManager.StaffManagerView.HandleEditRate | src/components/StaffManager.js:140-143 | opens the editor on the member with its rate |
| StaffManager.StaffManagerView.HandleEditMember | src/components/StaffManager.js:183-188 | opens the editor with the member's rate, approver and role ('standard' when empty) |
| StaffManager.StaffManagerView.SetEditorValues | src/components/StaffManager.js:26-28 | typing changes only the editor's texts |
| StaffManager.StaffManagerView.HandleCancelEdit | src/components/StaffManager.js:250-255 | closes the editor and resets its texts |
| StaffManager.StaffManagerView.HandleCancelApproverEdit | src/components/StaffManager.js:178-181 | closes the editor and clears only its approver |
| StaffManager.StaffManagerView.HandleSaveRate | src/components/StaffManager.js:145-176 | a valid rate is stored on the members with the id and closes the rate editor; an invalid one changes nothing |
| StaffManager.StaffManagerView.HandleSaveMember | src/components/StaffManager.js:190-248 | a valid rate is stored with approver and role and closes the editor; an invalid one changes nothing |
| StaffManager.StaffManagerView.HandleDeleteStaff | src/components/StaffManager.js:265-284 | the list loses the members with the id and is stored |
| StaffManager.StaffManagerView.HandleToggleActive | src/components/StaffManager.js:286-305 | the members with the id flip their flag and the list is stored |
| StaffManager.StaffManagerView.HandleResetData | src/components/StaffManager.js:307-311 | the defaults are stored and shown |
| Dashboard.ComputedTotal | src/components/Dashboard.js:99-112 | with start and end set the text is empty exactly when no time was worked; a non-empty text reads back as the hours rounded to hundredths |
| Dashboard.Retotal | src/components/Dashboard.js:97-113 | only the total may change; it is recomputed when start and end are set, otherwise the day is unchanged |
| Dashboard.ApplyEditEffect | src/components/Dashboard.js:88-116 | an edit changes its own day only; other days and the key order stay |
| Dashboard.EditedDay | src/components/Dashboard.js:89-112 | the edited day differs from the old one in the edited field and a recomputed total, or keeps the old total when start or end is missing |
| Dashboard.SevenHourDay | src/components/Dashboard.js:99-112 | 09:00 to 17:00 with lunch 12:00 to 13:00 gives "7.00h" |
| Dashboard.NonPositiveDayIsBlank | src/components/Dashboard.js:112 | a day ending before it starts gets an empty total |
| Dashboard.DayHoursOfCurrent | src/components/Dashboard.js:121-124 | a current day adds its hours rounded to hundredths |
| Dashboard.WeekTotalOfCurrentSheet | src/components/Dashboard.js:119-127 | when every day total is current the week total is a number: the sum of the rounded day hours |
| Dashboard.EmptyTimesheetCurrent | src/components/Dashboard.js:8-16 | the initial week has every total current |
| Dashboard.ApplyEditCurrent | src/components/Dashboard.js:88-116 | an edit keeps every total current exactly when the edited day still has start and end or had an empty total |
| Dashboard.RetotalCurrent | src/components/Dashboard.js:97-113 | an edited day is current exactly when it has start and end or its old total was empty |
| Dashboard.Export | src/components/Dashboard.js:182-205 | export succeeds exactly for admins and approvers and hands over the whole ledger |
| Dashboard.StandardCannotExport | src/components/Dashboard.js:183 | a standard user is refused |
| Dashboard.FirstWithId | src/components/Dashboard.js:40 | the position of the first member with the id |
| Dashboard.FindById | src/components/Dashboard.js:40 | `find` by id returns a member with it exactly when one exists, and then the first such member |
| Dashboard.RefreshedUser | src/components/Dashboard.js:33-47 | nothing without a user; with one, a member exactly when the stored list holds the user's id, and then the first member with that id |
| Dashboard.DashboardView.constructor | src/components/Dashboard.js:8-30 | starts from the user's saved week, or the empty week, with a matching week total |
| Dashboard.DashboardView.LoadTimesheetData | src/components/Dashboard.js:53-66 | takes the saved week when there is one, else keeps the shown week |
| Dashboard.DashboardView.CalculateWeekTotal | src/components/Dashboard.js:119-131 | the shown week total becomes the week's total |
| Dashboard.DashboardView.HandleTimeChange | src/components/Dashboard.js:87-117 | the week becomes the edited week and the week total follows it |
| Dashboard.DashboardView.HandleSave | src/components/Dashboard.js:150-175 | with a user, writes the week and a ledger entry with name and role; without one, nothing |
| Dashboard.DashboardView.HandleSubmit | src/components/Dashboard.js:177-180 | the same writes as saving |
| Dashboard.DashboardView.HandleExport | src/components/Dashboard.js:182-205 | hands out what `Export` decides for the session user and the current store: the whole ledger, exported by that user, exactly for admins and approvers |
| Dashboard.DashboardView.OnStaffDataUpdated | src/components/Dashboard.js:34-47 | the session record becomes the stored member with the user's id when there is one; otherwise nothing is written |
| Login.FirstMatch | src/components/Login.js:120-124 | the position of the first active member with these credentials, no earlier member matching |
| Login.FindMatch | src/components/Login.js:120-124 | the first active member with these credentials, present exactly when one exists |
| Login.Decide | src/components/Login.js:109-154 | missing credentials exactly when a field is empty; success exactly when an active member matches, logging in the first match; otherwise "inactive" or "wrong password" exactly as the first member with the username is inactive or active, "not found" exactly when none has it |
| Login.MustChangePasswordStillLogsIn | src/components/Login.js:126-134 | a member flagged to change the password still logs in |
| Login.DecideAgreesWithValidateLogin | src/components/Login.js:112-147 | with unique usernames the screen and validateLogin agree on every outcome |
| Login.DuplicateUsernamesDisagree | src/components/Login.js:120-143 | with an inactive and an active member sharing a username, the screen logs in and validateLogin refuses |
| Login.Usernames | src/components/Login.js:145-146 | the usernames of the users offered, in order |
| Login.MessageAfter | src/components/Login.js:112-147 | a plain login and a reseed keep the previous message; an unknown user lists the offered usernames |
| Login.DefaultStaffAllActive | src/components/Login.js:47-48 | the defaults are non-empty and all active |
| Login.LoadAvailableUsers | src/components/Login.js:27-50 | offers the stored active members; a missing or empty list, or one without an active member, is replaced by the defaults, which are offered |
| Login.LoginForm.constructor | src/components/Login.js:52-54 | empty form, no message, users loaded as by loadAvailableUsers |
| Login.LoginForm.HandleInputChange | src/components/Login.js:100-107 | typing sets the credentials and clears the message |
| Login.LoginForm.HandleSubmit | src/components/Login.js:109-154 | logs in and stores the session record exactly on success; seeds the defaults when no list is stored; otherwise writes nothing; sets the message of the outcome |
| Login.LoginForm.HandleRefreshUsers | src/components/Login.js:156-160 | reloads the users offered and clears message and credentials |
| Login.LoginForm.Poll | src/components/Login.js:57-72 | replaces the users offered only when the number of stored active members differs and is not zero |
| Login.LoginForm.HandleResetData | src/components/Login.js:162-170 | the store holds only the defaults, which are offered |
| Login.LoginForm.HandleClearAllData | src/components/Login.js:172-185 | the store holds only the defaults, which are offered, with the cleared message |
| Reports.ReportDayHours | src/components/Reports.js:29 | an empty total counts zero, a parsed total its value, an unparseable one zero |
| Reports.ReportHours | src/components/Reports.js:28-30 | one contribution per day |
| Reports.EntryHoursAgreesWithWeekTotal | src/components/Reports.js:27-30 | where the dashboard's week total is a number, the summary counts the same hours |
| Reports.SumEntryHours | src/components/Reports.js:27-30 | the hours loop computes the entry's hours |
| Reports.RateOf | src/components/Reports.js:33-36 | zero when no member has the username or the rate is empty, else `parseFloat` of the first member's rate |
| Reports.SavedRateIsNumber | src/components/Reports.js:36 | a rate stored by the staff editor reads as a non-negative number |
| Reports.RowFor | src/components/Reports.js:25-39 | a row keeps the entry's user, name and role; its hours, rate and cost are the week's hours, the member's rate and unrounded hours times rate, each rounded to hundredths; so hours are within half a hundredth, rate and cost are numbers exactly when the rate is, and cost is within half a hundredth of hours times rate |
| Reports.BuildRow | src/components/Reports.js:25-39 | the loop body builds the row of its entry |
| Reports.CollectRowsMembers | src/components/Reports.js:21-40 | every row comes from an entry of the week, every entry of the week has its row, one row per entry |
| Reports.CollectRowsAppend | src/components/Reports.js:23-40 | collecting over two runs of entries collects over each in turn |
| Reports.CollectRowsOne | src/components/Reports.js:24 | a single entry gives its row exactly when it belongs to the week |
| Reports.CollectRowsSnoc | src/components/Reports.js:23-40 | one more ledger entry adds its row at the end exactly when it belongs to the week |
| Reports.NameLeTotal | src/components/Reports.js:42 | any two names are ordered one way or the other |
| Reports.NameLeTransitive | src/components/Reports.js:42 | the name order is transitive |
| Reports.InsertByName | src/components/Reports.js:42 | insertion adds exactly the one row |
| Reports.InsertByNameSorted | src/components/Reports.js:42 | inserting into a sorted list keeps it sorted |
| Reports.SortByName | src/components/Reports.js:42 | the sort is a permutation of the rows |
| Reports.SortByNameSorted | src/components/Reports.js:42 | the sort's result is ordered by name |
| Reports.CollectWeek | src/components/Reports.js:23-40 | the loop over the ledger builds exactly the week's rows, one per entry of the week, in ledger order |
| Reports.WeeklyRows | src/components/Reports.js:21-44 | the rows are the week's rows sorted by name: sorted, and a permutation of the collected rows |
| Reports.GrandTotals | src/components/Reports.js:46-51 | the totals are the running sums of the rows' hours and costs, first to last as the reduce adds them; the cost total is a number exactly when every row's cost is; non-negative hours give non-negative total hours |
| Reports.InsertByNameTotals | src/components/Reports.js:46-51 | where a row is inserted does not change the totals |
| Reports.GrandTotalsOfSorted | src/components/Reports.js:46-51 | sorting the rows does not change the grand totals |
| Reports.TenHoursText | src/components/Reports.js:29 | "10.00h" counts ten hours |
| Reports.FifteenRateText | src/components/Reports.js:36 | "15.00" reads as fifteen |
| Reports.TenHourWeek | src/components/Reports.js:27-30 | a week whose only day totals "10.00h" counts ten hours |
| Reports.FifteenRate | src/components/Reports.js:33-36 | a member whose stored rate is "15.00" is paid fifteen an hour |
| Reports.TenHoursAtFifteen | src/components/Reports.js:36-39 | ten hours at 15.00 give a row of 10.00 hours, rate 15.00 and cost 150.00 |
| AppState.Initial | src/hooks/useAppState.js:6-21 | the login view, nobody logged in, counter zero |
| AppState.RenderCurrentView | src/hooks/useAppState.js:58-75 | the login screen exactly when logged out, with the counter; the staff manager exactly when logged in and selected; otherwise the dashboard of the current user |
| AppState.StepKeepsConsistent | src/hooks/useAppState.js:31-55 | every action keeps "logged in exactly when there is a user, never on the login view" |
| AppState.RunKeepsConsistent | src/hooks/useAppState.js:31-55 | every reachable state is consistent |
| AppState.DashboardHasUser | src/hooks/useAppState.js:67-74 | in a consistent state the dashboard always has a user |
| AppState.RunRefreshTrigger | src/hooks/useAppState.js:39-55 | the counter grows by the number of log-outs and returns to the dashboard, so it never decreases |
| AppState.LogInShowsDashboard | src/hooks/useAppState.js:32-37 | after login the user's dashboard shows |
| AppState.LogOutShowsLogin | src/hooks/useAppState.js:39-45 | after logout the login screen shows with the counter moved on |
| AppState.ShowStaffManagerOnlyView | src/hooks/useAppState.js:48-50 | opening the staff manager changes only the view |
| AppState.StaffManagerRoundTrip | src/hooks/useAppState.js:48-55 | going to the staff manager and back shows the dashboard again, counter plus one |
| AppState.App.constructor | src/hooks/useAppState.js:13-21 | the initial session, with the staff list initialized |
| AppState.App.Login | src/hooks/useAppState.js:32-37 | the session takes the login step and the session record is stored |
| AppState.App.Logout | src/hooks/useAppState.js:39-45 | the session takes the logout step and the session record is removed |
| AppState.App.ShowStaffManager | src/hooks/useAppState.js:48-50 | the session takes the show-staff-manager step |
| AppState.App.BackToDashboard | src/hooks/useAppState.js:52-55 | the session takes the back-to-dashboard step |

## Left out

- The rendering (JSX, CSS, the header and logo components) and the success, alert and confirmation boxes are not modelled. A confirmation is taken as accepted.
- Timers are not modelled: the clock ticking every second, the message reset after a delay, and the login poll's scheduling. The poll's body is `Login.LoginForm.Poll`.
- The `staffDataUpdated` browser event is not modelled as an event. Its listeners are methods the caller invokes: `Dashboard.DashboardView.OnStaffDataUpdated` and `Login.LoginForm.HandleRefreshUsers`.
- Dates are not modelled as dates. The week key string, the ISO timestamps, the local-time formatting (`formatTime`, `formatDate`) and time zones are parameters or left out. The week key's Monday is a day number (`TimeUtils.WeekStart`).
- `exportTimesheets` in timeUtils.js, the JSON download in `handleExport` and the spreadsheet export of the weekly summary produce files. They are left out; the model keeps what is exported (`Dashboard.Export`).
- Numbers are exact reals. IEEE rounding of `(end - start) / 3600000` and of sums is not modelled. Infinities never arise from these operations.
- Decimal.ParseFloat: leading white space, exponents and "Infinity" are not accepted. The program only parses text it wrote itself, plus typed rates.
- Decimal.RoundHundredths: rounds the exact value. `toFixed` rounds the binary double, so it can differ on values such as 1.005.
- JSON parse errors and storage write failures (the try/catch blocks) are not modelled. Every write succeeds; a key holding a value of the wrong kind reads as absent.
- Reports.SortByName: compares names by character code rather than with `localeCompare`'s locale rules. A missing name sorts as empty text. The program would throw a TypeError when a nameless row is the left operand of the comparison, and would compare with the text "undefined" when it is the right one. Only entries written by `saveTimesheetData` lack a name, and nothing in the program calls it.
- StaffManager.Lower: lowers ASCII letters only.
- Dashboard.ApplyEdit: a day the timesheet lacks starts from an empty day, as spreading `undefined` does.
- Login's own copy of the defaults can grow through `addUserToLoginDefaults`, which nothing calls. It is not modelled; the copy is the default staff.
- `App.js`, `Header.js`, `Logo.js`, the Firebase configuration, `appConfig.js` and the constants file are not part of this model.
- Console logging and the read-back checks after saving (which only log) are not modelled.
