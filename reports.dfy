/** The weekly payroll summary: one row per ledger entry of the current week,
    with the entry's hours, the member's current rate and the resulting cost,
    sorted by name, and the grand totals over the rows. */
module Reports {
  import opened Common
  import opened Decimal
  import opened Dicts
  import opened Records
  import opened Storage
  import StaffData
  import TimeUtils
  import StaffManager

  /** A row of the summary. `name` and `role` are absent for entries written
      without them. */
  datatype Row = Row(
    username: string,
    name: Option<string>,
    role: Option<string>,
    totalHours: real,
    rate: Num,
    cost: Num)

  // ------------------------------------------------------------- hours

  /** A day's contribution to an entry's hours: an empty total counts 0, as
      does one that does not parse (`parseFloat(...) || 0`). */
  function ReportDayHours(day: DayEntry): (r: real)
    ensures day.total == "" ==> r == 0.0
    ensures day.total != "" && ParseFloat(RemoveFirstH(day.total)).Finite? ==>
              r == ParseFloat(RemoveFirstH(day.total)).v
    ensures day.total != "" && ParseFloat(RemoveFirstH(day.total)).NaN? ==> r == 0.0
  {
    if day.total == "" then 0.0 else ParseFloat(RemoveFirstH(day.total)).OrZero()
  }

  /** What each day adds to an entry's hours, in the week's order. */
  function ReportHours(t: Timesheet): (hs: seq<real>)
    ensures |hs| == |t|
  {
    seq(|t|, i requires 0 <= i < |t| => ReportDayHours(t[i].value))
  }

  /** An entry's hours: the sum over its days, in order. */
  function EntryHours(t: Timesheet): real {
    SumReals(ReportHours(t))
  }

  /** Where the dashboard's week total is a number, the summary counts the
      same hours for that timesheet; the two differ only in that the summary
      turns an unparseable total into 0 where the dashboard gets NaN. */
  lemma EntryHoursAgreesWithWeekTotal(t: Timesheet)
    requires TimeUtils.WeekTotal(t).Finite?
    ensures EntryHours(t) == TimeUtils.WeekTotal(t).v
  {
    var hs, rs := TimeUtils.DayValues(t), ReportHours(t);
    forall i | 0 <= i < |t| && hs[i].Finite?
      ensures rs[i] == hs[i].v
    {
      assert hs[i] == TimeUtils.DayHours(t[i].value);
    }
    SumFinite(hs, rs);
  }

  // ------------------------------------------------------------- one row

  /** The member's current rate: `parseFloat(hourlyRate)`, or 0 when no member
      has the username or the rate is empty. */
  function RateOf(staff: seq<StaffMember>, username: string): (r: Num)
    ensures (forall m :: m in staff ==> m.username != username) ==> r == Finite(0.0)
    ensures StaffData.FindByUsername(staff, username).Some? ==>
              var m := StaffData.FindByUsername(staff, username).value;
              r == if m.hourlyRate == "" then Finite(0.0) else ParseFloat(m.hourlyRate)
  {
    match StaffData.FindByUsername(staff, username)
    case None => Finite(0.0)
    case Some(user) => if user.hourlyRate == "" then Finite(0.0) else ParseFloat(user.hourlyRate)
  }

  /** A rate the staff editor stored is a non-negative number with two decimals. */
  lemma SavedRateIsNumber(staff: seq<StaffMember>, username: string, typed: string)
    requires StaffData.FindByUsername(staff, username).Some?
    requires StaffManager.NormalizedRate(typed).Some?
    requires StaffData.FindByUsername(staff, username).value.hourlyRate == StaffManager.NormalizedRate(typed).value
    ensures RateOf(staff, username) == Finite(Round2(ParseFloat(typed).v))
    ensures RateOf(staff, username).v >= 0.0
  {
    var v := ParseFloat(typed).v;
    assert StaffManager.NormalizedRate(typed).value == FormatFixed2(v);
    assert Round2(v) == RoundHundredths(v) as real / 100.0;
  }

  /** The row an entry of the week produces: hours rounded to hundredths, the
      rate rounded to hundredths, and the cost the unrounded hours times the
      rate, rounded to hundredths. */
  function RowFor(entry: LedgerEntry, staff: seq<StaffMember>): (r: Row)
    ensures r.username == entry.username && r.name == entry.name && r.role == entry.role
    ensures -0.005 <= r.totalHours - EntryHours(entry.data) <= 0.005
    ensures r.rate.Finite? <==> RateOf(staff, entry.username).Finite?
    ensures r.cost.Finite? <==> RateOf(staff, entry.username).Finite?
    ensures r.cost.Finite? ==>
              -0.005 <= r.cost.v - Finite(EntryHours(entry.data)).Times(RateOf(staff, entry.username)).v <= 0.005
    ensures r.totalHours == Round2(EntryHours(entry.data))
    ensures r.rate == RoundNum(RateOf(staff, entry.username))
    ensures r.cost == RoundNum(Finite(EntryHours(entry.data)).Times(RateOf(staff, entry.username)))
  {
    var totalHours := EntryHours(entry.data);
    var rate := RateOf(staff, entry.username);
    Row(entry.username, entry.name, entry.role, Round2(totalHours), RoundNum(rate),
        RoundNum(Finite(totalHours).Times(rate)))
  }

  /** The test of weeklyRows' filter: the entry was saved for weekKey. */
  function InWeek(weekKey: string): LedgerEntry -> bool {
    (e: LedgerEntry) => e.weekKey == weekKey
  }

  /** The entries saved for weekKey, in ledger order. */
  function WeekEntries(entries: seq<LedgerEntry>, weekKey: string): seq<LedgerEntry> {
    Filter(entries, InWeek(weekKey))
  }

  /** The row-making step of weeklyRows for a given staff list. */
  function RowMaker(staff: seq<StaffMember>): LedgerEntry -> Row {
    (e: LedgerEntry) => RowFor(e, staff)
  }

  /** The rows of the week: the entries saved for weekKey, each mapped to its row. */
  function CollectRows(entries: seq<LedgerEntry>, staff: seq<StaffMember>, weekKey: string): seq<Row> {
    Map(WeekEntries(entries, weekKey), RowMaker(staff))
  }

  /** Every row comes from an entry of the week, every entry of the week has
      its row, and there is exactly one row per entry of the week. */
  lemma CollectRowsMembers(entries: seq<LedgerEntry>, staff: seq<StaffMember>, weekKey: string)
    ensures forall r :: r in CollectRows(entries, staff, weekKey) ==>
              exists e :: e in entries && e.weekKey == weekKey && r == RowFor(e, staff)
    ensures forall e :: e in entries && e.weekKey == weekKey ==> RowFor(e, staff) in CollectRows(entries, staff, weekKey)
    ensures |CollectRows(entries, staff, weekKey)| == |Filter(entries, InWeek(weekKey))|
  {
    var es, rows := WeekEntries(entries, weekKey), CollectRows(entries, staff, weekKey);
    forall r | r in rows
      ensures exists e :: e in entries && e.weekKey == weekKey && r == RowFor(e, staff)
    {
      var i :| 0 <= i < |rows| && rows[i] == r;
      assert es[i] in es && InWeek(weekKey)(es[i]);
    }
    forall e | e in entries && e.weekKey == weekKey
      ensures RowFor(e, staff) in rows
    {
      assert InWeek(weekKey)(e);
      var i :| 0 <= i < |es| && es[i] == e;
      assert rows[i] == RowFor(e, staff);
    }
  }

  /** Collecting over two runs of entries is collecting over each in turn. */
  lemma CollectRowsAppend(a: seq<LedgerEntry>, b: seq<LedgerEntry>, staff: seq<StaffMember>, weekKey: string)
    ensures CollectRows(a + b, staff, weekKey) == CollectRows(a, staff, weekKey) + CollectRows(b, staff, weekKey)
  {
    FilterAppend(a, b, InWeek(weekKey));
    MapAppend(WeekEntries(a, weekKey), WeekEntries(b, weekKey), RowMaker(staff));
  }

  /** A single entry gives its row when it belongs to the week, else none. */
  lemma CollectRowsOne(entry: LedgerEntry, staff: seq<StaffMember>, weekKey: string)
    ensures CollectRows([entry], staff, weekKey) == if entry.weekKey == weekKey then [RowFor(entry, staff)] else []
  {
    assert [entry][1..] == [];
  }

  /** One more entry of the ledger: its row is added when it is in the week. */
  lemma CollectRowsSnoc(entries: seq<LedgerEntry>, i: nat, staff: seq<StaffMember>, weekKey: string)
    requires i < |entries|
    ensures CollectRows(entries[..i + 1], staff, weekKey)
            == CollectRows(entries[..i], staff, weekKey)
               + (if entries[i].weekKey == weekKey then [RowFor(entries[i], staff)] else [])
  {
    assert entries[..i + 1] == entries[..i] + [entries[i]];
    CollectRowsAppend(entries[..i], [entries[i]], staff, weekKey);
    CollectRowsOne(entries[i], staff, weekKey);
  }

  // ------------------------------------------------------------- ordering

  /** Text order, character by character; a prefix comes first. */
  predicate NameLe(a: string, b: string) {
    a == [] || (b != [] && (a[0] < b[0] || (a[0] == b[0] && NameLe(a[1..], b[1..]))))
  }

  lemma {:induction false} NameLeTotal(a: string, b: string)
    ensures NameLe(a, b) || NameLe(b, a)
  {
    if a != [] && b != [] && a[0] == b[0] {
      NameLeTotal(a[1..], b[1..]);
    }
  }

  lemma {:induction false} NameLeTransitive(a: string, b: string, c: string)
    requires NameLe(a, b) && NameLe(b, c)
    ensures NameLe(a, c)
  {
    if a != [] && a[0] == b[0] && b[0] == c[0] {
      NameLeTransitive(a[1..], b[1..], c[1..]);
    }
  }

  /** The sort key: the row's name (a missing name sorts as empty text). */
  function Key(r: Row): string {
    r.name.GetOr("")
  }

  predicate SortedByName(rows: seq<Row>) {
    forall i, j :: 0 <= i < j < |rows| ==> NameLe(Key(rows[i]), Key(rows[j]))
  }

  /** Places r before the first row whose name is not smaller, so rows with
      equal names keep their relative order. */
  function InsertByName(r: Row, sorted: seq<Row>): (res: seq<Row>)
    ensures multiset(res) == multiset{r} + multiset(sorted)
  {
    if sorted == [] || NameLe(Key(r), Key(sorted[0])) then [r] + sorted
    else
      assert sorted == [sorted[0]] + sorted[1..];
      [sorted[0]] + InsertByName(r, sorted[1..])
  }

  lemma {:induction false} InsertByNameSorted(r: Row, sorted: seq<Row>)
    requires SortedByName(sorted)
    ensures SortedByName(InsertByName(r, sorted))
  {
    var res := InsertByName(r, sorted);
    if sorted == [] || NameLe(Key(r), Key(sorted[0])) {
      forall i, j | 0 <= i < j < |res|
        ensures NameLe(Key(res[i]), Key(res[j]))
      {
        if i == 0 && j > 1 {
          NameLeTransitive(Key(r), Key(sorted[0]), Key(sorted[j - 1]));
        }
      }
    } else {
      var tail := InsertByName(r, sorted[1..]);
      InsertByNameSorted(r, sorted[1..]);
      NameLeTotal(Key(r), Key(sorted[0]));
      forall j | 0 <= j < |tail|
        ensures NameLe(Key(sorted[0]), Key(tail[j]))
      {
        assert tail[j] in multiset(tail);
        if tail[j] != r {
          assert tail[j] in multiset(sorted[1..]);
          var k :| 0 <= k < |sorted[1..]| && sorted[1..][k] == tail[j];
          assert sorted[k + 1] == tail[j];
        }
      }
      assert res == [sorted[0]] + tail;
    }
  }

  /** rows.sort by name: a stable insertion sort. */
  function SortByName(rows: seq<Row>): (res: seq<Row>)
    ensures multiset(res) == multiset(rows)
  {
    if rows == [] then []
    else
      assert rows == [rows[0]] + rows[1..];
      InsertByName(rows[0], SortByName(rows[1..]))
  }

  lemma {:induction false} SortByNameSorted(rows: seq<Row>)
    ensures SortedByName(SortByName(rows))
  {
    if rows != [] {
      SortByNameSorted(rows[1..]);
      InsertByNameSorted(rows[0], SortByName(rows[1..]));
    }
  }

  // ------------------------------------------------------------- the screen

  /** The hours loop of weeklyRows: adds up the days' totals of one entry. */
  method SumEntryHours(data: Timesheet) returns (totalHours: real)
    ensures totalHours == EntryHours(data)
  {
    totalHours := 0.0;
    var j := 0;
    while j < |data|
      invariant 0 <= j <= |data|
      invariant totalHours == SumReals(ReportHours(data)[..j])
    {
      SumRealsStep(ReportHours(data), j);
      var day := data[j].value;
      if day.total != "" {
        totalHours := totalHours + ParseFloat(RemoveFirstH(day.total)).OrZero();
      }
      j := j + 1;
    }
    assert ReportHours(data)[..j] == ReportHours(data);
  }

  /** The body of the weeklyRows loop for an entry of the week: its hours,
      the member's rate looked up by username, and the cost. */
  method BuildRow(entry: LedgerEntry, staff: seq<StaffMember>) returns (row: Row)
    ensures row == RowFor(entry, staff)
  {
    var totalHours := SumEntryHours(entry.data);
    var user := StaffData.FindByUsername(staff, entry.username);
    var rate := if user.Some? && user.value.hourlyRate != "" then ParseFloat(user.value.hourlyRate) else Finite(0.0);
    var cost := RoundNum(Finite(totalHours).Times(rate));
    row := Row(entry.username, entry.name, entry.role, Round2(totalHours), RoundNum(rate), cost);
  }

  /** The loop of weeklyRows: one row per entry of the week, in ledger order. */
  method CollectWeek(allTimesheets: seq<LedgerEntry>, staff: seq<StaffMember>, weekKey: string)
    returns (collected: seq<Row>)
    ensures collected == CollectRows(allTimesheets, staff, weekKey)
  {
    collected := [];
    var i := 0;
    while i < |allTimesheets|
      invariant 0 <= i <= |allTimesheets|
      invariant collected == CollectRows(allTimesheets[..i], staff, weekKey)
    {
      var entry := allTimesheets[i];
      CollectRowsSnoc(allTimesheets, i, staff, weekKey);
      if entry.weekKey == weekKey {
        var row := BuildRow(entry, staff);
        collected := collected + [row];
      }
      i := i + 1;
    }
    assert allTimesheets[..i] == allTimesheets;
  }

  /** weeklyRows: reads the ledger and the staff list and builds the sorted
      rows of the week. */
  method WeeklyRows(store: LocalStorage, weekKey: string) returns (rows: seq<Row>)
    ensures rows == SortByName(CollectRows(Values(StoredLedger(store.items)), StoredStaffOrEmpty(store.items), weekKey))
    ensures SortedByName(rows)
    ensures multiset(rows) == multiset(CollectRows(Values(StoredLedger(store.items)), StoredStaffOrEmpty(store.items), weekKey))
  {
    var collected := CollectWeek(Values(StoredLedger(store.items)), StoredStaffOrEmpty(store.items), weekKey);
    rows := SortByName(collected);
    SortByNameSorted(collected);
  }

  // ------------------------------------------------------------- grand totals

  datatype Totals = Totals(hours: real, cost: Num)

  /** A row's hours and cost, as the reduce in grandTotals reads them. */
  function RowHours(r: Row): real { r.totalHours }
  function RowCost(r: Row): Num { r.cost }

  /** grandTotals: the sums of the rows' (rounded) hours and costs, in the
      order the reduce adds them; a row whose cost is NaN makes the cost
      total NaN. */
  function GrandTotals(rows: seq<Row>): (t: Totals)
    ensures t.hours == SumReals(Map(rows, RowHours))
    ensures t.cost == Sum(Map(rows, RowCost))
    ensures t.cost.Finite? <==> forall r :: r in rows ==> r.cost.Finite?
    ensures (forall r :: r in rows ==> r.totalHours >= 0.0) ==> t.hours >= 0.0
  {
    if rows == [] then Totals(0.0, Finite(0.0))
    else
      var rest := GrandTotals(rows[1..]);
      MapCons(rows, RowHours);
      MapCons(rows, RowCost);
      SumRealsCons(rows[0].totalHours, Map(rows[1..], RowHours));
      SumCons(rows[0].cost, Map(rows[1..], RowCost));
      Totals(rows[0].totalHours + rest.hours, rows[0].cost.Plus(rest.cost))
  }

  /** Adding a row anywhere in the list adds it to the totals. */
  lemma {:induction false} InsertByNameTotals(r: Row, sorted: seq<Row>)
    ensures GrandTotals(InsertByName(r, sorted)) == GrandTotals([r] + sorted)
  {
    if !(sorted == [] || NameLe(Key(r), Key(sorted[0]))) {
      var tail := InsertByName(r, sorted[1..]);
      InsertByNameTotals(r, sorted[1..]);
      assert ([sorted[0]] + tail)[1..] == tail;
      assert ([r] + sorted[1..])[1..] == sorted[1..];
      assert ([r] + sorted)[1..] == sorted;
      assert sorted == [sorted[0]] + sorted[1..];
      PlusCommutes(sorted[0].cost, r.cost);
      PlusAssociates(sorted[0].cost, r.cost, GrandTotals(sorted[1..]).cost);
      PlusAssociates(r.cost, sorted[0].cost, GrandTotals(sorted[1..]).cost);
    }
  }

  /** Sorting the rows does not change the grand totals. */
  lemma {:induction false} GrandTotalsOfSorted(rows: seq<Row>)
    ensures GrandTotals(SortByName(rows)) == GrandTotals(rows)
  {
    if rows != [] {
      GrandTotalsOfSorted(rows[1..]);
      InsertByNameTotals(rows[0], SortByName(rows[1..]));
      assert ([rows[0]] + SortByName(rows[1..]))[1..] == SortByName(rows[1..]);
    }
  }

  /** "10.00h" counts ten hours. */
  lemma TenHoursText()
    ensures ParseFloat(RemoveFirstH("10.00h")) == Finite(10.0)
  {
    assert NatToString(10) == NatToString(1) + [DigitChar(0)];
    assert FixedString(1000) == "10.00" by {
      assert [DigitChar(1000 / 10 % 10), DigitChar(1000 % 10)] == "00";
    }
    ParseFixedString(1000);
    RemoveFirstHOfSuffixed("10.00");
    assert "10.00" + "h" == "10.00h";
  }

  /** "15.00" is a rate of fifteen. */
  lemma FifteenRateText()
    ensures ParseFloat("15.00") == Finite(15.0)
  {
    assert NatToString(15) == NatToString(1) + [DigitChar(5)];
    assert FixedString(1500) == "15.00" by {
      assert [DigitChar(1500 / 10 % 10), DigitChar(1500 % 10)] == "00";
    }
    ParseFixedString(1500);
  }

  /** A week whose only day totals "10.00h" counts ten hours. */
  lemma TenHourWeek(day: DayEntry)
    requires day.total == "10.00h"
    ensures EntryHours([Slot("Monday", day)]) == 10.0
  {
    assert ReportDayHours(day) == 10.0 by {
      TenHoursText();
    }
    SumOne(ReportHours([Slot("Monday", day)]));
  }

  /** A member whose stored rate is "15.00" is paid fifteen an hour. */
  lemma FifteenRate(staff: seq<StaffMember>, username: string)
    requires |staff| > 0 && staff[0].username == username && staff[0].hourlyRate == "15.00"
    ensures RateOf(staff, username) == Finite(15.0)
  {
    FifteenRateText();
    assert StaffData.FirstWithUsername(staff, username) == 0;
  }

  /** 10 hours at a rate of 15.00 cost 150.00, and the row shows 10.00 hours
      and a rate of 15.00. */
  lemma TenHoursAtFifteen(entry: LedgerEntry, staff: seq<StaffMember>)
    requires EntryHours(entry.data) == 10.0 && RateOf(staff, entry.username) == Finite(15.0)
    ensures RowFor(entry, staff).totalHours == 10.0
    ensures RowFor(entry, staff).rate == Finite(15.0)
    ensures RowFor(entry, staff).cost == Finite(150.0)
  {
    assert RoundHundredths(10.0) == 1000;
    assert RoundHundredths(15.0) == 1500;
    assert RoundHundredths(150.0) == 15000;
  }
}
