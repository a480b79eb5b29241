/** Time arithmetic and timesheet storage (src/utils/timeUtils.js): elapsed
    hours between clock times, a day's total with the lunch break taken out,
    the week total read back from the day totals' text, the week key, the
    empty timesheet, and the per-user copy plus ledger entry written on save.
    The current date comes in as a day number and the current week's key as
    text: both come from the clock. */
module TimeUtils {
  import opened Common
  import opened Decimal
  import opened Dicts
  import opened Records
  import opened Storage

  // ---------------------------------------------------------------- hours

  /** Hours from one clock time to another on the same day; zero when either
      is empty; negative when the end is before the start. */
  function CalculateHours(startTime: TimeField, endTime: TimeField): (h: real)
    ensures startTime.Blank? || endTime.Blank? ==> h == 0.0
    ensures startTime.At? && endTime.At? ==> h * 60.0 == (endTime.minute - startTime.minute) as real
    ensures startTime.At? && endTime.At? ==> (h < 0.0 <==> endTime.minute < startTime.minute)
  {
    if startTime.Blank? || endTime.Blank? then 0.0
    else (endTime.minute - startTime.minute) as real / 60.0
  }

  /** The lunch break in hours, counted only when both lunch times are set. */
  function LunchHours(day: DayEntry): (h: real)
    ensures day.lunchOut.Blank? || day.lunchIn.Blank? ==> h == 0.0
  {
    if day.lunchOut.At? && day.lunchIn.At? then CalculateHours(day.lunchOut, day.lunchIn) else 0.0
  }

  /** Start-to-end hours less the lunch break (may be zero or negative). */
  function WorkedHours(day: DayEntry): real {
    CalculateHours(day.start, day.end) - LunchHours(day)
  }

  /** The hours worked on a day: zero without both a start and an end time,
      otherwise the start-to-end span less the lunch break when both lunch
      times are set, and zero when that is not positive. */
  function CalculateDayTotal(day: DayEntry): (h: real)
    ensures h >= 0.0
    ensures day.start.Blank? || day.end.Blank? ==> h == 0.0
    ensures h > 0.0 ==> h == WorkedHours(day)
    ensures day.start.At? && day.end.At? && WorkedHours(day) > 0.0 ==> h == WorkedHours(day)
  {
    if day.start.Blank? || day.end.Blank? then 0.0
    else
      var total := WorkedHours(day);
      if total > 0.0 then total else 0.0
  }

  /** With either lunch time missing, the day total is the bare start-to-end
      span (or zero when that is not positive), whatever the other lunch field holds. */
  lemma LunchIgnoredUnlessBoth(day: DayEntry, other: TimeField)
    requires day.lunchOut.Blank? || day.lunchIn.Blank?
    ensures var span := CalculateHours(day.start, day.end);
            CalculateDayTotal(day) == (if span > 0.0 then span else 0.0)
    ensures day.lunchOut.Blank? ==> CalculateDayTotal(day.(lunchIn := other)) == CalculateDayTotal(day)
    ensures day.lunchIn.Blank? ==> CalculateDayTotal(day.(lunchOut := other)) == CalculateDayTotal(day)
  {
  }

  // ------------------------------------------------------------ week total

  /** What one day adds to the week total: nothing when its total text is
      empty, otherwise parseFloat of the text with its 'h' removed. */
  function DayHours(day: DayEntry): (r: Num)
    ensures day.total == "" ==> r == Finite(0.0)
  {
    if day.total == "" then Finite(0.0) else ParseFloat(RemoveFirstH(day.total))
  }

  /** What each day adds, in the week's order. */
  function DayValues(t: Timesheet): (hs: seq<Num>)
    ensures |hs| == |t|
  {
    seq(|t|, i requires 0 <= i < |t| => DayHours(t[i].value))
  }

  /** The week total: the days' contributions summed in order. */
  function WeekTotal(t: Timesheet): Num {
    Sum(DayValues(t))
  }

  /** The week total of a timesheet is the sum of the totals of its parts. */
  lemma WeekTotalAppend(a: Timesheet, b: Timesheet)
    ensures WeekTotal(a + b) == WeekTotal(a).Plus(WeekTotal(b))
  {
    var whole, parts := DayValues(a + b), DayValues(a) + DayValues(b);
    forall i | 0 <= i < |whole|
      ensures whole[i] == parts[i]
    {
      if i < |a| {
        assert (a + b)[i] == a[i];
      } else {
        assert (a + b)[i] == b[i - |a|];
      }
    }
    assert whole == parts;
    SumAppend(DayValues(a), DayValues(b));
  }

  /** The week total is a number exactly when every day's total parses. */
  lemma WeekTotalFinite(t: Timesheet)
    ensures WeekTotal(t).Finite? <==> forall i :: 0 <= i < |t| ==> DayHours(t[i].value).Finite?
  {
    var hs := DayValues(t);
    assert forall i :: 0 <= i < |t| ==> hs[i] == DayHours(t[i].value);
    SumFinite(hs, seq(|hs|, i requires 0 <= i < |hs| => hs[i].OrZero()));
  }

  /** Object.values(timesheet).forEach(...) accumulating the parsed day totals. */
  method CalculateWeekTotal(t: Timesheet) returns (total: Num)
    ensures total == WeekTotal(t)
  {
    total := Finite(0.0);
    var i := 0;
    while i < |t|
      invariant 0 <= i <= |t|
      invariant total == Sum(DayValues(t)[..i])
    {
      SumStep(DayValues(t), i);
      var day := t[i].value;
      if day.total != "" {
        total := total.Plus(ParseFloat(RemoveFirstH(day.total)));
      } else {
        PlusZero(total);
      }
      i := i + 1;
    }
    assert DayValues(t)[..i] == DayValues(t);
  }

  // ------------------------------------------------------- empty timesheet

  function DayNames(): (names: seq<string>)
    ensures |names| == 7
    ensures forall i, j :: 0 <= i < j < 7 ==> names[i] != names[j]
  {
    ["monday", "tuesday", "wednesday", "thursday", "friday", "saturday", "sunday"]
  }

  /** Each of the given day names mapped to an empty day, in order. */
  function BlankDays(names: seq<string>): (t: Timesheet)
    ensures |t| == |names|
    ensures forall i :: 0 <= i < |t| ==> t[i] == Slot(names[i], BlankDay)
  {
    if names == [] then [] else [Slot(names[0], BlankDay)] + BlankDays(names[1..])
  }

  /** Distinct names give a well-formed week whose keys are those names. */
  lemma BlankDaysKeys(names: seq<string>)
    requires forall i, j :: 0 <= i < j < |names| ==> names[i] != names[j]
    ensures Keys(BlankDays(names)) == names && DistinctKeys(BlankDays(names))
  {
    var t := BlankDays(names);
    assert forall i :: 0 <= i < |t| ==> Keys(t)[i] == names[i];
  }

  /** The empty week: the seven day names, Monday first, each day empty. */
  function EmptyTimesheet(): (t: Timesheet)
    ensures Keys(t) == DayNames() && DistinctKeys(t)
    ensures forall i :: 0 <= i < |t| ==> t[i].value == BlankDay
  {
    var names := DayNames();
    BlankDaysKeys(names);
    BlankDays(names)
  }

  /** An empty week has a week total of zero. */
  lemma EmptyTimesheetTotal()
    ensures WeekTotal(EmptyTimesheet()) == Finite(0.0)
  {
    SumZeros(DayValues(EmptyTimesheet()));
  }

  /** createEmptyTimesheet: assigns an empty day to each day name in turn. */
  method CreateEmptyTimesheet() returns (t: Timesheet)
    ensures t == EmptyTimesheet()
  {
    t := FillBlankDays(DayNames());
  }

  /** The loop of createEmptyTimesheet over the given (distinct) day names. */
  method FillBlankDays(days: seq<string>) returns (t: Timesheet)
    requires forall i, j :: 0 <= i < j < |days| ==> days[i] != days[j]
    ensures t == BlankDays(days)
  {
    t := [];
    for i := 0 to |days|
      invariant t == BlankDays(days)[..i]
    {
      NextDayAppends(t, days, i);
      t := Put(t, days[i], BlankDay);
    }
    assert BlankDays(days)[..|days|] == BlankDays(days);
  }

  /** Filling in the next distinct day name appends it. */
  lemma NextDayAppends(t: Timesheet, days: seq<string>, i: nat)
    requires forall a, b :: 0 <= a < b < |days| ==> days[a] != days[b]
    requires i < |days| && t == BlankDays(days)[..i]
    ensures Put(t, days[i], BlankDay) == BlankDays(days)[..i + 1]
  {
    assert BlankDays(days)[..i + 1] == t + [Slot(days[i], BlankDay)];
    assert days[i] !in Keys(t) by {
      forall j | 0 <= j < i
        ensures Keys(t)[j] != days[i]
      {
        assert Keys(t)[j] == days[j];
      }
    }
    PutAbsentAppends(t, days[i], BlankDay);
  }

  // -------------------------------------------------------------- week key

  /** Date.getDay() of day number `day` (day 0 is Thursday 1 January 1970);
      0 is Sunday, 1 Monday, ..., 6 Saturday. */
  function Weekday(day: int): (w: int)
    ensures 0 <= w < 7
  {
    (day + 4) % 7
  }

  /** The day the week key names: `date - getDay() + 1`. */
  function WeekStart(day: int): (monday: int)
    ensures Weekday(monday) == 1
    ensures Weekday(day) == 0 ==> monday == day + 1
    ensures Weekday(day) != 0 ==> monday <= day <= monday + 5
  {
    day - Weekday(day) + 1
  }

  /** The days that share a week key are the Sunday before its Monday through
      the following Saturday: a Sunday is filed under the next Monday. */
  lemma SameWeekKey(day: int, monday: int)
    requires Weekday(monday) == 1
    ensures WeekStart(day) == monday <==> monday - 1 <= day <= monday + 5
  {
    if monday - 1 <= day <= monday + 5 {
      assert Weekday(day) == (day - monday + 1) % 7 by {
        assert (day + 4) % 7 == ((day - monday + 1) + (monday + 3)) % 7;
      }
    }
  }

  /** getCurrentWeekDates: the seven days from the week key's Monday. */
  method GetCurrentWeekDates(today: int) returns (dates: seq<int>)
    ensures |dates| == 7
    ensures forall i :: 0 <= i < 7 ==> dates[i] == WeekStart(today) + i
  {
    var startOfWeek := today - Weekday(today) + 1;
    dates := [];
    for i := 0 to 7
      invariant |dates| == i
      invariant forall j :: 0 <= j < i ==> dates[j] == startOfWeek + j
    {
      dates := dates + [startOfWeek + i];
    }
  }

  // ----------------------------------------------------------- storage key

  /** The storage key of a user's timesheet for a week. */
  function TimesheetKey(username: string, weekKey: string): (key: string)
    ensures |key| == 11 + |username| + |weekKey|
    ensures key[..10] == "timesheet_"
    ensures key[10..10 + |username|] == username
    ensures key[10 + |username|] == '_'
    ensures key[11 + |username|..] == weekKey
  {
    "timesheet_" + username + "_" + weekKey
  }

  /** A timesheet key never collides with the staff, session or ledger keys. */
  lemma TimesheetKeyNotReserved(username: string, weekKey: string)
    ensures TimesheetKey(username, weekKey) != StaffKey
    ensures TimesheetKey(username, weekKey) != CurrentUserKey
    ensures TimesheetKey(username, weekKey) != TimesheetsKey
  {
    var key := TimesheetKey(username, weekKey);
    assert key[0] == 't';
    assert StaffKey[0] == 'r' && CurrentUserKey[0] == 'c' && TimesheetsKey[0] == 'r';
  }

  /** With week keys free of '_' (dates are), distinct users or weeks get
      distinct storage keys. */
  lemma TimesheetKeyInjective(u1: string, w1: string, u2: string, w2: string)
    requires '_' !in w1 && '_' !in w2
    requires TimesheetKey(u1, w1) == TimesheetKey(u2, w2)
    ensures u1 == u2 && w1 == w2
  {
  }

  // ---------------------------------------------------------- load and save

  /** The store after saving a timesheet: the timesheet under the user's key
      and the ledger entry upserted under the same key in the ledger. */
  function RecordTimesheet(items: Items, username: string, weekKey: string, entry: LedgerEntry): (r: Items)
    ensures StoredSheet(r, TimesheetKey(username, weekKey)) == Some(entry.data)
    ensures Lookup(StoredLedger(r), TimesheetKey(username, weekKey)) == Some(entry)
    ensures forall k :: k != TimesheetKey(username, weekKey) ==>
              Lookup(StoredLedger(r), k) == Lookup(StoredLedger(items), k)
    ensures forall k :: k != TimesheetKey(username, weekKey) && k != TimesheetsKey ==>
              (k in r <==> k in items) && (k in items ==> r[k] == items[k])
  {
    var key := TimesheetKey(username, weekKey);
    TimesheetKeyNotReserved(username, weekKey);
    items[key := SheetData(entry.data)][TimesheetsKey := LedgerMap(Put(StoredLedger(items), key, entry))]
  }

  /** Saving keeps the ledger's keys distinct. */
  lemma RecordTimesheetKeepsLedgerDistinct(items: Items, username: string, weekKey: string, entry: LedgerEntry)
    requires DistinctKeys(StoredLedger(items))
    ensures DistinctKeys(StoredLedger(RecordTimesheet(items, username, weekKey, entry)))
  {
    PutKeepsDistinct(StoredLedger(items), TimesheetKey(username, weekKey), entry);
  }

  /** loadTimesheetData: the stored timesheet for the user's week, or an
      empty week when there is none. */
  method LoadTimesheetData(store: LocalStorage, username: string, weekKey: string) returns (t: Timesheet)
    ensures StoredSheet(store.items, TimesheetKey(username, weekKey)).Some? ==>
              t == StoredSheet(store.items, TimesheetKey(username, weekKey)).value
    ensures StoredSheet(store.items, TimesheetKey(username, weekKey)).None? ==> t == EmptyTimesheet()
  {
    var key := TimesheetKey(username, weekKey);
    if key in store.items && store.items[key].SheetData? {
      t := store.items[key].sheet;
    } else {
      t := CreateEmptyTimesheet();
    }
  }

  /** saveTimesheetData: writes the per-user copy, then upserts a ledger entry
      carrying username, week key, data and time (no name or role). */
  method SaveTimesheetData(store: LocalStorage, username: string, weekKey: string, data: Timesheet, savedAt: string)
    returns (ok: bool)
    modifies store
    ensures ok
    ensures store.items == RecordTimesheet(old(store.items), username, weekKey,
                                           LedgerEntry(username, None, None, weekKey, data, savedAt))
  {
    var key := TimesheetKey(username, weekKey);
    TimesheetKeyNotReserved(username, weekKey);
    store.SetItem(key, SheetData(data));
    var allTimesheets := StoredLedger(store.items);
    allTimesheets := Put(allTimesheets, key, LedgerEntry(username, None, None, weekKey, data, savedAt));
    store.SetItem(TimesheetsKey, LedgerMap(allTimesheets));
    ok := true;
  }
}
