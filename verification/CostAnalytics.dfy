/**
 The cost analytics of one car: charges grouped by month in the database, the two monthly lists merged
 through a map keyed by text, the breakdown by category, averages and projections. The yardstick is the
 plain fold over all charges.
 */
module CostAnalytics {
  import opened Wrappers
  import opened Lists
  import opened Rental
  import opened StableSort
  import opened Decimal
  import opened KeyedMap

  datatype Month = Month(year: int, number: int)

  predicate Earlier(a: Month, b: Month) {
    a.year < b.year || (a.year == b.year && a.number < b.number)
  }

  /** Months are ordered by time. */
  lemma EarlierIsByTime(a: Month, b: Month)
    requires InCalendar(a) && InCalendar(b)
    ensures Earlier(a, b) <==> 12 * a.year + a.number < 12 * b.year + b.number
  {
  }

  /** A service or insurance record: when it was, in which month that fell, and its cost if there is one. */
  datatype Charge = Charge(at: Millis, month: Month, cost: Option<real>)

  datatype MonthTotal = MonthTotal(month: Month, total: real)

  datatype MonthlyCost = MonthlyCost(
    month: string,
    year: int,
    service: real,
    insurance: real,
    registration: real,
    issues: real,
    total: real)

  // ---------- Sums ----------

  function Sum(records: seq<MonthTotal>): real {
    if records == [] then 0.0 else records[0].total + Sum(records[1..])
  }

  /** What the records of one month add up to. */
  function TotalFor(records: seq<MonthTotal>, m: Month): real {
    if records == [] then 0.0
    else (if records[0].month == m then records[0].total else 0.0) + TotalFor(records[1..], m)
  }

  predicate HasMonth(records: seq<MonthTotal>, m: Month) {
    exists i | 0 <= i < |records| :: records[i].month == m
  }

  /** A missing cost counts as nothing. */
  function Recorded(charges: seq<Charge>): seq<MonthTotal> {
    if charges == [] then []
    else [MonthTotal(charges[0].month, charges[0].cost.GetOr(0.0))] + Recorded(charges[1..])
  }

  function CostOf(charges: seq<Charge>): real {
    Sum(Recorded(charges))
  }

  lemma {:induction false} TotalForAppend(records: seq<MonthTotal>, r: MonthTotal, m: Month)
    ensures TotalFor(records + [r], m) == TotalFor(records, m) + if r.month == m then r.total else 0.0
    ensures HasMonth(records + [r], m) <==> HasMonth(records, m) || r.month == m
  {
    assert (records + [r])[|records|] == r;
    assert forall i | 0 <= i < |records| :: (records + [r])[i] == records[i];
    if records != [] {
      assert (records + [r])[1..] == records[1..] + [r];
      TotalForAppend(records[1..], r, m);
    }
  }

  /** One record more adds its cost to the costs and to its own month, and nothing to any other. */
  lemma {:induction false} OneRecordMore(charges: seq<Charge>, c: Charge, m: Month)
    ensures CostOf(charges + [c]) == CostOf(charges) + c.cost.GetOr(0.0)
    ensures TotalFor(Recorded(charges + [c]), m)
         == TotalFor(Recorded(charges), m) + if c.month == m then c.cost.GetOr(0.0) else 0.0
    ensures HasMonth(Recorded(charges + [c]), m) <==> HasMonth(Recorded(charges), m) || c.month == m
  {
    RecordedAppend(charges, c);
    TotalForAppend(Recorded(charges), MonthTotal(c.month, c.cost.GetOr(0.0)), m);
    SumAppend(Recorded(charges), MonthTotal(c.month, c.cost.GetOr(0.0)));
  }

  lemma {:induction false} RecordedAppend(charges: seq<Charge>, c: Charge)
    ensures Recorded(charges + [c]) == Recorded(charges) + [MonthTotal(c.month, c.cost.GetOr(0.0))]
  {
    if charges == [] {
      assert charges + [c] == [c] && [c][1..] == [];
    } else {
      assert (charges + [c])[1..] == charges[1..] + [c];
      RecordedAppend(charges[1..], c);
    }
  }

  lemma {:induction false} SumAppend(records: seq<MonthTotal>, r: MonthTotal)
    ensures Sum(records + [r]) == Sum(records) + r.total
  {
    if records == [] {
      assert records + [r] == [r] && [r][1..] == [];
    } else {
      assert (records + [r])[1..] == records[1..] + [r];
      SumAppend(records[1..], r);
    }
  }

  lemma {:induction false} NothingWithoutTheMonth(records: seq<MonthTotal>, m: Month)
    requires !HasMonth(records, m)
    ensures TotalFor(records, m) == 0.0
  {
    if records != [] {
      assert records[0].month != m;
      assert forall i | 0 <= i < |records| - 1 :: records[1..][i] == records[i + 1];
      NothingWithoutTheMonth(records[1..], m);
    }
  }

  // ---------- GROUP BY year, month ORDER BY year, month ----------

  function AddToGroups(groups: seq<MonthTotal>, r: MonthTotal): seq<MonthTotal> {
    if groups == [] then [r]
    else if r.month == groups[0].month then [groups[0].(total := r.total + groups[0].total)] + groups[1..]
    else if Earlier(r.month, groups[0].month) then [r] + groups
    else [groups[0]] + AddToGroups(groups[1..], r)
  }

  function Group(records: seq<MonthTotal>): seq<MonthTotal> {
    if records == [] then [] else AddToGroups(Group(records[1..]), records[0])
  }

  function MonthlyBreakdown(charges: seq<Charge>): seq<MonthTotal> {
    Group(Recorded(charges))
  }

  predicate Ascending(groups: seq<MonthTotal>) {
    forall i, j | 0 <= i < j < |groups| :: Earlier(groups[i].month, groups[j].month)
  }

  lemma {:induction false} AddingToGroups(groups: seq<MonthTotal>, r: MonthTotal, m: Month)
    ensures TotalFor(AddToGroups(groups, r), m) == TotalFor(groups, m) + if r.month == m then r.total else 0.0
    ensures Sum(AddToGroups(groups, r)) == Sum(groups) + r.total
    ensures HasMonth(AddToGroups(groups, r), m) <==> HasMonth(groups, m) || r.month == m
  {
    var added := AddToGroups(groups, r);
    if groups == [] {
      assert added[0] == r;
    } else {
      AddingToGroups(groups[1..], r, m);
      HeadAndTail(groups, m);
      HeadAndTail(added, m);
      assert added == [added[0]] + added[1..];
      if r.month != groups[0].month && Earlier(r.month, groups[0].month) {
        assert added[1..] == groups;
      } else if r.month == groups[0].month {
        assert added[1..] == groups[1..];
      } else {
        assert added[1..] == AddToGroups(groups[1..], r);
      }
    }
  }

  lemma HeadAndTail(records: seq<MonthTotal>, m: Month)
    requires records != []
    ensures HasMonth(records, m) <==> records[0].month == m || HasMonth(records[1..], m)
  {
  }

  lemma {:induction false} AddingKeepsAscending(groups: seq<MonthTotal>, r: MonthTotal)
    requires Ascending(groups)
    ensures Ascending(AddToGroups(groups, r))
  {
    if groups != [] && r.month != groups[0].month && !Earlier(r.month, groups[0].month) {
      var rest := AddToGroups(groups[1..], r);
      AddingKeepsAscending(groups[1..], r);
      forall j | 0 <= j < |rest|
        ensures Earlier(groups[0].month, rest[j].month)
      {
        AddingToGroups(groups[1..], r, rest[j].month);
        assert HasMonth(rest, rest[j].month);
      }
    }
  }

  /** The grouped list has each month of the records once, ascending, with that month's total. */
  lemma {:induction false} GroupIsGroupBy(records: seq<MonthTotal>, m: Month)
    ensures Ascending(Group(records))
    ensures HasMonth(Group(records), m) <==> HasMonth(records, m)
    ensures TotalFor(Group(records), m) == TotalFor(records, m)
    ensures Sum(Group(records)) == Sum(records)
  {
    if records != [] {
      GroupIsGroupBy(records[1..], m);
      AddingToGroups(Group(records[1..]), records[0], m);
      AddingKeepsAscending(Group(records[1..]), records[0]);
      HeadAndTail(records, m);
    }
  }

  // ---------- Month names and map keys ----------

  const MONTHS: seq<string> := [
    "January", "February", "March", "April", "May", "June", "July", "August", "September", "October", "November",
    "December"]

  function GetMonthName(month: int): string {
    if 1 <= month <= 12 then MONTHS[month - 1] else "Unknown"
  }

  /** `indexOf`: the first position, or -1. */
  function IndexOf(list: seq<string>, s: string): (i: int)
    ensures -1 <= i < |list|
    ensures i >= 0 ==> list[i] == s && s !in list[..i]
    ensures i == -1 ==> s !in list
  {
    if list == [] then -1
    else if list[0] == s then 0
    else
      var i := IndexOf(list[1..], s);
      assert list == [list[0]] + list[1..];
      assert i >= 0 ==> list[..i + 1] == [list[0]] + list[1..][..i];
      if i < 0 then -1 else i + 1
  }

  function GetMonthNumber(name: string): (n: int)
    ensures 0 <= n <= 12
  {
    IndexOf(MONTHS, name) + 1
  }

  predicate InCalendar(m: Month) {
    1 <= m.number <= 12
  }

  lemma MonthsDiffer(i: nat, j: nat)
    requires i < j < 12
    ensures MONTHS[i] != MONTHS[j]
  {
  }

  /** A calendar month's name gives its number back, so names order months as numbers do. */
  lemma MonthRoundTrip(month: int)
    requires 1 <= month <= 12
    ensures GetMonthNumber(GetMonthName(month)) == month
  {
    var i := IndexOf(MONTHS, MONTHS[month - 1]);
    assert MONTHS[month - 1] in MONTHS;
    if i < month - 1 {
      MonthsDiffer(i, month - 1);
    }
  }

  function Key(m: Month): string {
    Dec(m.year) + "-" + Dec(m.number)
  }

  /** The separator is the first sign after the first character. */
  lemma KeyIsNotLonger(a: Month, b: Month)
    requires Key(a) == Key(b)
    ensures |Dec(a.year)| <= |Dec(b.year)|
  {
    var n := |Dec(b.year)|;
    DecChars(a.year);
    DecChars(b.year);
    assert Key(b)[n] == '-';
    assert forall i | 0 <= i < |Dec(a.year)| :: Key(a)[i] == Dec(a.year)[i];
  }

  /** Two months share a key of the map only when they are the same month. */
  lemma KeyInjective(a: Month, b: Month)
    requires Key(a) == Key(b)
    ensures a == b
  {
    KeyIsNotLonger(a, b);
    KeyIsNotLonger(b, a);
    var n := |Dec(a.year)|;
    assert Key(a)[..n] == Dec(a.year) && Key(b)[..n] == Dec(b.year);
    assert Key(a)[n + 1..] == Dec(a.number) && Key(b)[n + 1..] == Dec(b.number);
    DecInjective(a.year, b.year);
    DecInjective(a.number, b.number);
  }

  // ---------- Merging the two monthly lists ----------

  /** The row a month should get. */
  function Row(m: Month, service: seq<MonthTotal>, insurance: seq<MonthTotal>): MonthlyCost {
    MonthlyCost(GetMonthName(m.number), m.year, TotalFor(service, m), TotalFor(insurance, m), 0.0, 0.0,
      TotalFor(service, m) + TotalFor(insurance, m))
  }

  function Rows(service: seq<MonthTotal>, insurance: seq<MonthTotal>): Month -> MonthlyCost {
    (m: Month) => Row(m, service, insurance)
  }

  ghost predicate Met(months: seq<Month>, service: seq<MonthTotal>, insurance: seq<MonthTotal>) {
    forall m :: m in months <==> HasMonth(service, m) || HasMonth(insurance, m)
  }

  /** The map holds exactly the row of each month met so far, under that month's key. */
  ghost predicate Merged(monthMap: map<string, MonthlyCost>, keys: seq<string>, months: seq<Month>,
    service: seq<MonthTotal>, insurance: seq<MonthTotal>)
  {
    Represents(monthMap, keys, months, Key, Rows(service, insurance)) && Met(months, service, insurance)
  }

  /** What a month's row is like before anything was added to it. */
  function EmptyRow(m: Month): MonthlyCost {
    MonthlyCost(GetMonthName(m.number), m.year, 0.0, 0.0, 0.0, 0.0, 0.0)
  }

  lemma KeysAreInjective()
    ensures Injective(Key)
  {
    forall a, b | Key(a) == Key(b)
      ensures a == b
    {
      KeyInjective(a, b);
    }
  }

  lemma EntryBefore(monthMap: map<string, MonthlyCost>, keys: seq<string>, months: seq<Month>,
    service: seq<MonthTotal>, insurance: seq<MonthTotal>, m: Month)
    requires Merged(monthMap, keys, months, service, insurance)
    ensures Key(m) in monthMap <==> m in months
    ensures (if m in months then monthMap[Key(m)] else EmptyRow(m)) == Row(m, service, insurance)
  {
    KeysAreInjective();
    Lookup(monthMap, keys, months, Key, Rows(service, insurance), m);
    if m !in months {
      NothingWithoutTheMonth(service, m);
      NothingWithoutTheMonth(insurance, m);
    }
  }

  /** The state of the merge when a month's new row has been stored. */
  ghost predicate MergedWith(monthMap: map<string, MonthlyCost>, keys: seq<string>, months: seq<Month>,
    service: seq<MonthTotal>, insurance: seq<MonthTotal>, m: Month)
  {
    var monthMap' := monthMap[Key(m) := Row(m, service, insurance)];
    if m in months then Merged(monthMap', keys, months, service, insurance)
    else Merged(monthMap', keys + [Key(m)], months + [m], service, insurance)
  }

  lemma MetAfter(months: seq<Month>, service: seq<MonthTotal>, insurance: seq<MonthTotal>,
    service': seq<MonthTotal>, insurance': seq<MonthTotal>, m: Month)
    requires Met(months, service, insurance)
    requires forall k :: HasMonth(service', k) || HasMonth(insurance', k) <==>
               k == m || HasMonth(service, k) || HasMonth(insurance, k)
    ensures Met(if m in months then months else months + [m], service', insurance')
  {
  }

  lemma AppendedElsewhere(records: seq<MonthTotal>, r: MonthTotal)
    ensures forall k :: k != r.month ==> TotalFor(records + [r], k) == TotalFor(records, k)
    ensures forall k :: HasMonth(records + [r], k) <==> HasMonth(records, k) || k == r.month
  {
    forall k
      ensures k != r.month ==> TotalFor(records + [r], k) == TotalFor(records, k)
      ensures HasMonth(records + [r], k) <==> HasMonth(records, k) || k == r.month
    {
      TotalForAppend(records, r, k);
    }
  }

  lemma ServiceStep(monthMap: map<string, MonthlyCost>, keys: seq<string>, months: seq<Month>,
    service: seq<MonthTotal>, insurance: seq<MonthTotal>, r: MonthTotal)
    requires Merged(monthMap, keys, months, service, insurance) && !HasMonth(service, r.month)
    ensures var before := Row(r.month, service, insurance);
            Row(r.month, service + [r], insurance) == before.(service := r.total, total := before.total + r.total)
    ensures MergedWith(monthMap, keys, months, service + [r], insurance, r.month)
  {
    TotalForAppend(service, r, r.month);
    NothingWithoutTheMonth(service, r.month);
    AppendedElsewhere(service, r);
    KeysAreInjective();
    Put(monthMap, keys, months, Key, Rows(service, insurance), Rows(service + [r], insurance), r.month);
    MetAfter(months, service, insurance, service + [r], insurance, r.month);
  }

  lemma InsuranceStep(monthMap: map<string, MonthlyCost>, keys: seq<string>, months: seq<Month>,
    service: seq<MonthTotal>, insurance: seq<MonthTotal>, r: MonthTotal)
    requires Merged(monthMap, keys, months, service, insurance) && !HasMonth(insurance, r.month)
    ensures var before := Row(r.month, service, insurance);
            Row(r.month, service, insurance + [r]) == before.(insurance := r.total, total := before.total + r.total)
    ensures MergedWith(monthMap, keys, months, service, insurance + [r], r.month)
  {
    TotalForAppend(insurance, r, r.month);
    NothingWithoutTheMonth(insurance, r.month);
    AppendedElsewhere(insurance, r);
    KeysAreInjective();
    Put(monthMap, keys, months, Key, Rows(service, insurance), Rows(service, insurance + [r]), r.month);
    MetAfter(months, service, insurance, service, insurance + [r], r.month);
  }

  function MonthOf(row: MonthlyCost): Month {
    Month(row.year, GetMonthNumber(row.month))
  }

  /** The order the rows are sorted by. */
  predicate NotLater(a: MonthlyCost, b: MonthlyCost) {
    if a.year != b.year then a.year < b.year else GetMonthNumber(a.month) <= GetMonthNumber(b.month)
  }

  /** The rows are strictly ascending, one for each month of either list, each with that month's totals. */
  ghost predicate IsMerge(rows: seq<MonthlyCost>, service: seq<MonthTotal>, insurance: seq<MonthTotal>) {
    && (forall i, j | 0 <= i < j < |rows| :: Earlier(MonthOf(rows[i]), MonthOf(rows[j])))
    && (forall i | 0 <= i < |rows| :: rows[i] == Row(MonthOf(rows[i]), service, insurance))
    && (forall i | 0 <= i < |rows| :: HasMonth(service, MonthOf(rows[i])) || HasMonth(insurance, MonthOf(rows[i])))
    && (forall m | HasMonth(service, m) || HasMonth(insurance, m) ::
          exists i | 0 <= i < |rows| :: MonthOf(rows[i]) == m)
  }

  predicate OncePerCalendarMonth(records: seq<MonthTotal>) {
    && (forall i | 0 <= i < |records| :: InCalendar(records[i].month))
    && (forall i, j | 0 <= i < j < |records| :: records[i].month != records[j].month)
  }

  lemma MetMonthsAreInCalendar(months: seq<Month>, service: seq<MonthTotal>, insurance: seq<MonthTotal>)
    requires Met(months, service, insurance) && OncePerCalendarMonth(service) && OncePerCalendarMonth(insurance)
    ensures forall i | 0 <= i < |months| :: InCalendar(months[i])
  {
    forall i | 0 <= i < |months|
      ensures InCalendar(months[i])
    {
      assert months[i] in months;
    }
  }

  lemma OrderOfRows()
    ensures IsOrder(NotLater)
  {
  }

  lemma RowsNameTheirMonths(months: seq<Month>, service: seq<MonthTotal>, insurance: seq<MonthTotal>)
    requires forall i | 0 <= i < |months| :: InCalendar(months[i])
    ensures forall i | 0 <= i < |months| :: MonthOf(Row(months[i], service, insurance)) == months[i]
  {
    forall i | 0 <= i < |months|
      ensures MonthOf(Row(months[i], service, insurance)) == months[i]
    {
      MonthRoundTrip(months[i].number);
    }
  }

  /** The rows of distinct calendar months, sorted, are a merge. */
  lemma {:induction false} SortedRowsAreMerge(unsorted: seq<MonthlyCost>, months: seq<Month>,
    service: seq<MonthTotal>, insurance: seq<MonthTotal>)
    requires |unsorted| == |months| && Distinct(months) && Met(months, service, insurance)
    requires forall i | 0 <= i < |months| :: unsorted[i] == Row(months[i], service, insurance)
    requires forall i | 0 <= i < |months| :: InCalendar(months[i])
    ensures IsMerge(Sort(unsorted, NotLater), service, insurance)
  {
    var rows := Sort(unsorted, NotLater);
    RowsNameTheirMonths(months, service, insurance);
    OrderOfRows();
    SortById(unsorted, months, NotLater, MonthOf, Rows(service, insurance));
    forall i, j | 0 <= i < j < |rows|
      ensures Earlier(MonthOf(rows[i]), MonthOf(rows[j]))
    {
      assert NotLater(rows[i], rows[j]) && MonthOf(rows[i]) != MonthOf(rows[j]);
    }
  }

  lemma MergedOnStoring(monthMap: map<string, MonthlyCost>, keys: seq<string>, months: seq<Month>,
    service: seq<MonthTotal>, insurance: seq<MonthTotal>, m: Month,
    monthMap': map<string, MonthlyCost>, keys': seq<string>, months': seq<Month>)
    requires MergedWith(monthMap, keys, months, service, insurance, m)
    requires monthMap' == monthMap[Key(m) := Row(m, service, insurance)]
    requires m in months ==> keys' == keys && months' == months
    requires m !in months ==> keys' == keys + [Key(m)] && months' == months + [m]
    ensures Merged(monthMap', keys', months', service, insurance)
  {
  }

  /** One round of the first loop. */
  method AddServiceRecord(oldMap: map<string, MonthlyCost>, oldKeys: seq<string>, ghost oldMonths: seq<Month>,
    ghost service: seq<MonthTotal>, ghost insurance: seq<MonthTotal>, record: MonthTotal)
    returns (monthMap: map<string, MonthlyCost>, keys: seq<string>, ghost months: seq<Month>)
    requires Merged(oldMap, oldKeys, oldMonths, service, insurance) && !HasMonth(service, record.month)
    ensures Merged(monthMap, keys, months, service + [record], insurance)
  {
    EntryBefore(oldMap, oldKeys, oldMonths, service, insurance, record.month);
    ServiceStep(oldMap, oldKeys, oldMonths, service, insurance, record);
    monthMap, keys, months := oldMap, oldKeys, oldMonths;
    var key := Key(record.month);
    if key !in monthMap {
      monthMap := monthMap[key := EmptyRow(record.month)];
      keys, months := keys + [key], months + [record.month];
    }
    var entry := monthMap[key];
    var updated := entry.(service := record.total, total := entry.total + record.total);
    monthMap := monthMap[key := updated];
    assert updated == Row(record.month, service + [record], insurance);
    PutTwice(oldMap, key, EmptyRow(record.month), updated);
    MergedOnStoring(oldMap, oldKeys, oldMonths, service + [record], insurance, record.month, monthMap, keys, months);
  }

  /** One round of the second loop. */
  method AddInsuranceRecord(oldMap: map<string, MonthlyCost>, oldKeys: seq<string>, ghost oldMonths: seq<Month>,
    ghost service: seq<MonthTotal>, ghost insurance: seq<MonthTotal>, record: MonthTotal)
    returns (monthMap: map<string, MonthlyCost>, keys: seq<string>, ghost months: seq<Month>)
    requires Merged(oldMap, oldKeys, oldMonths, service, insurance) && !HasMonth(insurance, record.month)
    ensures Merged(monthMap, keys, months, service, insurance + [record])
  {
    EntryBefore(oldMap, oldKeys, oldMonths, service, insurance, record.month);
    InsuranceStep(oldMap, oldKeys, oldMonths, service, insurance, record);
    monthMap, keys, months := oldMap, oldKeys, oldMonths;
    var key := Key(record.month);
    if key !in monthMap {
      monthMap := monthMap[key := EmptyRow(record.month)];
      keys, months := keys + [key], months + [record.month];
    }
    var entry := monthMap[key];
    var updated := entry.(insurance := record.total, total := entry.total + record.total);
    monthMap := monthMap[key := updated];
    assert updated == Row(record.month, service, insurance + [record]);
    PutTwice(oldMap, key, EmptyRow(record.month), updated);
    MergedOnStoring(oldMap, oldKeys, oldMonths, service, insurance + [record], record.month, monthMap, keys, months);
  }

  method MergeMonthlyBreakdowns(serviceMonthly: seq<MonthTotal>, insuranceMonthly: seq<MonthTotal>)
    returns (rows: seq<MonthlyCost>)
    requires OncePerCalendarMonth(serviceMonthly) && OncePerCalendarMonth(insuranceMonthly)
    ensures IsMerge(rows, serviceMonthly, insuranceMonthly)
  {
    var monthMap: map<string, MonthlyCost> := map[];
    var keys: seq<string> := [];
    ghost var months: seq<Month> := [];
    for n := 0 to |serviceMonthly|
      invariant Merged(monthMap, keys, months, serviceMonthly[..n], [])
    {
      assert serviceMonthly[..n + 1] == serviceMonthly[..n] + [serviceMonthly[n]];
      monthMap, keys, months := AddServiceRecord(monthMap, keys, months, serviceMonthly[..n], [], serviceMonthly[n]);
    }
    assert serviceMonthly[..|serviceMonthly|] == serviceMonthly;
    for n := 0 to |insuranceMonthly|
      invariant Merged(monthMap, keys, months, serviceMonthly, insuranceMonthly[..n])
    {
      assert insuranceMonthly[..n + 1] == insuranceMonthly[..n] + [insuranceMonthly[n]];
      monthMap, keys, months :=
        AddInsuranceRecord(monthMap, keys, months, serviceMonthly, insuranceMonthly[..n], insuranceMonthly[n]);
    }
    assert insuranceMonthly[..|insuranceMonthly|] == insuranceMonthly;
    var values := seq(|keys|, i requires 0 <= i < |keys| => monthMap[keys[i]]);
    MetMonthsAreInCalendar(months, serviceMonthly, insuranceMonthly);
    SortedRowsAreMerge(values, months, serviceMonthly, insuranceMonthly);
    rows := Sort(values, NotLater);
  }

  // ---------- Nothing is lost on the way ----------

  function RowsTotal(rows: seq<MonthlyCost>): real {
    if rows == [] then 0.0 else rows[0].total + RowsTotal(rows[1..])
  }

  function MonthsOf(rows: seq<MonthlyCost>): (months: seq<Month>)
    ensures |months| == |rows|
  {
    seq(|rows|, i requires 0 <= i < |rows| => MonthOf(rows[i]))
  }

  function SumOver(months: seq<Month>, records: seq<MonthTotal>): real {
    if months == [] then 0.0 else TotalFor(records, months[0]) + SumOver(months[1..], records)
  }

  lemma {:induction false} FirstRecordCountsOnce(months: seq<Month>, records: seq<MonthTotal>)
    requires Distinct(months) && records != []
    ensures SumOver(months, records) ==
            SumOver(months, records[1..]) + if records[0].month in months then records[0].total else 0.0
  {
    if months != [] {
      FirstRecordCountsOnce(months[1..], records);
      assert months == [months[0]] + months[1..];
      assert forall j | 0 <= j < |months| - 1 :: months[1..][j] == months[j + 1] != months[0];
    }
  }

  lemma {:induction false} SumByMonths(months: seq<Month>, records: seq<MonthTotal>)
    requires Distinct(months) && forall m :: HasMonth(records, m) ==> m in months
    ensures SumOver(months, records) == Sum(records)
  {
    if records == [] {
      SumOverNothing(months);
    } else {
      forall m
        ensures HasMonth(records, m) <==> records[0].month == m || HasMonth(records[1..], m)
      {
        HeadAndTail(records, m);
      }
      SumByMonths(months, records[1..]);
      FirstRecordCountsOnce(months, records);
    }
  }

  lemma {:induction false} SumOverNothing(months: seq<Month>)
    ensures SumOver(months, []) == 0.0
  {
    if months != [] {
      SumOverNothing(months[1..]);
    }
  }

  lemma {:induction false} RowsSplit(rows: seq<MonthlyCost>, service: seq<MonthTotal>, insurance: seq<MonthTotal>)
    requires forall i | 0 <= i < |rows| :: rows[i] == Row(MonthOf(rows[i]), service, insurance)
    ensures RowsTotal(rows) == SumOver(MonthsOf(rows), service) + SumOver(MonthsOf(rows), insurance)
  {
    if rows != [] {
      assert MonthsOf(rows)[1..] == MonthsOf(rows[1..]);
      RowsSplit(rows[1..], service, insurance);
    }
  }

  lemma AllMonthsAreMerged(rows: seq<MonthlyCost>, service: seq<MonthTotal>, insurance: seq<MonthTotal>)
    requires IsMerge(rows, service, insurance)
    ensures SumOver(MonthsOf(rows), service) == Sum(service) && SumOver(MonthsOf(rows), insurance) == Sum(insurance)
  {
    var months := MonthsOf(rows);
    forall m | HasMonth(service, m) || HasMonth(insurance, m)
      ensures m in months
    {
      var i :| 0 <= i < |rows| && MonthOf(rows[i]) == m;
      assert months[i] == m;
    }
    SumByMonths(months, service);
    SumByMonths(months, insurance);
  }

  lemma MergeConservesCosts(rows: seq<MonthlyCost>, service: seq<MonthTotal>, insurance: seq<MonthTotal>)
    requires IsMerge(rows, service, insurance)
    ensures RowsTotal(rows) == Sum(service) + Sum(insurance)
  {
    RowsSplit(rows, service, insurance);
    AllMonthsAreMerged(rows, service, insurance);
  }

  // ---------- Column by column ----------

  function ServiceTotal(rows: seq<MonthlyCost>): real {
    if rows == [] then 0.0 else rows[0].service + ServiceTotal(rows[1..])
  }

  function InsuranceTotal(rows: seq<MonthlyCost>): real {
    if rows == [] then 0.0 else rows[0].insurance + InsuranceTotal(rows[1..])
  }

  lemma {:induction false} ColumnsSplit(rows: seq<MonthlyCost>, service: seq<MonthTotal>, insurance: seq<MonthTotal>)
    requires forall i | 0 <= i < |rows| :: rows[i] == Row(MonthOf(rows[i]), service, insurance)
    ensures ServiceTotal(rows) == SumOver(MonthsOf(rows), service)
    ensures InsuranceTotal(rows) == SumOver(MonthsOf(rows), insurance)
  {
    if rows != [] {
      assert MonthsOf(rows)[1..] == MonthsOf(rows[1..]);
      ColumnsSplit(rows[1..], service, insurance);
    }
  }

  /** The service column adds up to the services, the insurance column to the insurances, and each row to its total. */
  lemma MergeConservesColumns(rows: seq<MonthlyCost>, service: seq<MonthTotal>, insurance: seq<MonthTotal>)
    requires IsMerge(rows, service, insurance)
    ensures ServiceTotal(rows) == Sum(service) && InsuranceTotal(rows) == Sum(insurance)
    ensures forall i | 0 <= i < |rows| ::
              && rows[i].service == TotalFor(service, MonthOf(rows[i]))
              && rows[i].insurance == TotalFor(insurance, MonthOf(rows[i]))
              && rows[i].registration == rows[i].issues == 0.0
              && rows[i].total == rows[i].service + rows[i].insurance
  {
    ColumnsSplit(rows, service, insurance);
    AllMonthsAreMerged(rows, service, insurance);
  }

  lemma MergeOfGroups(rows: seq<MonthlyCost>, service: seq<MonthTotal>, insurance: seq<MonthTotal>)
    requires IsMerge(rows, Group(service), Group(insurance))
    ensures IsMerge(rows, service, insurance)
  {
    forall m
      ensures HasMonth(Group(service), m) <==> HasMonth(service, m)
      ensures HasMonth(Group(insurance), m) <==> HasMonth(insurance, m)
      ensures Row(m, Group(service), Group(insurance)) == Row(m, service, insurance)
    {
      GroupIsGroupBy(service, m);
      GroupIsGroupBy(insurance, m);
    }
  }

  predicate AscendingMonths(months: seq<Month>) {
    forall i, j | 0 <= i < j < |months| :: Earlier(months[i], months[j])
  }

  lemma FirstIsLeast(months: seq<Month>, m: Month)
    requires AscendingMonths(months) && m in months
    ensures m == months[0] || Earlier(months[0], m)
    ensures m in months[1..] <==> m != months[0]
  {
  }

  lemma {:induction false} SameMonthsSameOrder(a: seq<Month>, b: seq<Month>)
    requires AscendingMonths(a) && AscendingMonths(b)
    requires forall m :: m in a <==> m in b
    ensures a == b
  {
    assert b != [] ==> b[0] in b && b[0] in a;
    if a != [] {
      assert a[0] in b && b[0] in a;
      FirstIsLeast(a, b[0]);
      FirstIsLeast(b, a[0]);
      forall m
        ensures m in a[1..] <==> m in b[1..]
      {
        if m in a {
          FirstIsLeast(a, m);
          FirstIsLeast(b, m);
        }
      }
      SameMonthsSameOrder(a[1..], b[1..]);
      assert a == [a[0]] + a[1..] && b == [b[0]] + b[1..] && a[0] == b[0];
    }
  }

  lemma MonthsOfMerge(rows: seq<MonthlyCost>, service: seq<MonthTotal>, insurance: seq<MonthTotal>)
    requires IsMerge(rows, service, insurance)
    ensures AscendingMonths(MonthsOf(rows)) && Met(MonthsOf(rows), service, insurance)
  {
    var months := MonthsOf(rows);
    forall m
      ensures m in months <==> HasMonth(service, m) || HasMonth(insurance, m)
    {
      if HasMonth(service, m) || HasMonth(insurance, m) {
        var i :| 0 <= i < |rows| && MonthOf(rows[i]) == m;
        assert months[i] == m;
      }
    }
  }

  /** There is only one merge: the rows are fixed by the two lists. */
  lemma MergeIsUnique(rows: seq<MonthlyCost>, others: seq<MonthlyCost>,
    service: seq<MonthTotal>, insurance: seq<MonthTotal>)
    requires IsMerge(rows, service, insurance) && IsMerge(others, service, insurance)
    ensures rows == others
  {
    MonthsOfMerge(rows, service, insurance);
    MonthsOfMerge(others, service, insurance);
    SameMonthsSameOrder(MonthsOf(rows), MonthsOf(others));
    forall i | 0 <= i < |rows|
      ensures rows[i] == others[i]
    {
      assert MonthsOf(rows)[i] == MonthsOf(others)[i];
    }
  }

  // ---------- Categories ----------

  datatype TotalCosts = TotalCosts(all: real, service: real, insurance: real, registration: real, issues: real)

  datatype CategoryCost = CategoryCost(category: string, amount: real, percentage: int)

  /** `Math.round`: to the nearest integer, halves upwards. */
  function Round(x: real): int {
    (x + 0.5).Floor
  }

  function Percentage(amount: real, all: real): int
    requires all != 0.0
  {
    Round(amount / all * 100.0)
  }

  function Part(category: string, amount: real, all: real): seq<CategoryCost>
    requires all != 0.0
  {
    if amount > 0.0 then [CategoryCost(category, amount, Percentage(amount, all))] else []
  }

  function Categories(t: TotalCosts): seq<CategoryCost> {
    if t.all == 0.0 then []
    else
      Part("Service", t.service, t.all) + Part("Insurance", t.insurance, t.all)
      + Part("Registration", t.registration, t.all) + Part("Issues", t.issues, t.all)
  }

  method GenerateCategoryBreakdown(t: TotalCosts) returns (categories: seq<CategoryCost>)
    ensures categories == Categories(t)
  {
    if t.all == 0.0 {
      return [];
    }
    categories := [];
    if t.service > 0.0 {
      categories := categories + [CategoryCost("Service", t.service, Percentage(t.service, t.all))];
    }
    if t.insurance > 0.0 {
      categories := categories + [CategoryCost("Insurance", t.insurance, Percentage(t.insurance, t.all))];
    }
    if t.registration > 0.0 {
      categories := categories + [CategoryCost("Registration", t.registration, Percentage(t.registration, t.all))];
    }
    if t.issues > 0.0 {
      categories := categories + [CategoryCost("Issues", t.issues, Percentage(t.issues, t.all))];
    }
  }

  function AmountsTotal(categories: seq<CategoryCost>): real {
    if categories == [] then 0.0 else categories[0].amount + AmountsTotal(categories[1..])
  }

  function PercentagesTotal(categories: seq<CategoryCost>): int {
    if categories == [] then 0 else categories[0].percentage + PercentagesTotal(categories[1..])
  }

  /** The totals the analytics make: there are no registration or issue costs. */
  function TotalsOf(service: real, insurance: real): TotalCosts {
    TotalCosts(service + insurance, service, insurance, 0.0, 0.0)
  }

  lemma CategoriesOfTotals(service: real, insurance: real)
    requires service + insurance != 0.0
    ensures Categories(TotalsOf(service, insurance)) ==
            Part("Service", service, service + insurance) + Part("Insurance", insurance, service + insurance)
  {
  }

  /** Which categories are listed: each kind of cost that is positive, under its name and with its share. */
  lemma CategoriesExactly(service: real, insurance: real, c: CategoryCost)
    requires service + insurance != 0.0
    ensures c in Categories(TotalsOf(service, insurance)) <==>
            && c.amount > 0.0 && c.percentage == Percentage(c.amount, service + insurance)
            && (|| (c.category == "Service" && c.amount == service)
                || (c.category == "Insurance" && c.amount == insurance))
  {
    CategoriesOfTotals(service, insurance);
  }

  lemma {:induction false} TotalsSplit(a: seq<CategoryCost>, b: seq<CategoryCost>)
    ensures AmountsTotal(a + b) == AmountsTotal(a) + AmountsTotal(b)
    ensures PercentagesTotal(a + b) == PercentagesTotal(a) + PercentagesTotal(b)
  {
    if a == [] {
      assert a + b == b;
    } else {
      assert (a + b)[1..] == a[1..] + b;
      TotalsSplit(a[1..], b);
    }
  }

  lemma TotalsOfPart(category: string, amount: real, all: real)
    requires all != 0.0
    ensures AmountsTotal(Part(category, amount, all)) == if amount > 0.0 then amount else 0.0
    ensures PercentagesTotal(Part(category, amount, all)) == if amount > 0.0 then Percentage(amount, all) else 0
  {
  }

  lemma TotalsOfParts(service: real, insurance: real)
    requires service + insurance != 0.0
    ensures var all := service + insurance;
            && AmountsTotal(Categories(TotalsOf(service, insurance))) ==
                 (if service > 0.0 then service else 0.0) + (if insurance > 0.0 then insurance else 0.0)
            && PercentagesTotal(Categories(TotalsOf(service, insurance))) ==
                 (if service > 0.0 then Percentage(service, all) else 0)
                 + (if insurance > 0.0 then Percentage(insurance, all) else 0)
  {
    var all := service + insurance;
    CategoriesOfTotals(service, insurance);
    TotalsSplit(Part("Service", service, all), Part("Insurance", insurance, all));
    TotalsOfPart("Service", service, all);
    TotalsOfPart("Insurance", insurance, all);
  }

  /** The amounts add up to the whole exactly when no category is negative, or everything cancels out. */
  lemma AmountsAddUpExactlyWhen(service: real, insurance: real)
    ensures AmountsTotal(Categories(TotalsOf(service, insurance))) == service + insurance <==>
            (service >= 0.0 && insurance >= 0.0) || service + insurance == 0.0
  {
    if service + insurance != 0.0 {
      TotalsOfParts(service, insurance);
    }
  }

  lemma SharesAddUp(service: real, insurance: real)
    requires service + insurance > 0.0
    ensures insurance / (service + insurance) * 100.0 == 100.0 - service / (service + insurance) * 100.0
  {
    var all := service + insurance;
    assert service / all + insurance / all == all / all == 1.0;
  }

  lemma FloorIs(x: real, n: int)
    requires n as real <= x < n as real + 1.0
    ensures x.Floor == n
  {
  }

  lemma RoundedComplements(x: real)
    ensures Round(x) + Round(100.0 - x) == if x - x.Floor as real == 0.5 then 101 else 100
  {
    var n := x.Floor;
    var fraction := x - n as real;
    if fraction < 0.5 {
      FloorIs(x + 0.5, n);
      FloorIs(100.0 - x + 0.5, 100 - n);
    } else {
      FloorIs(x + 0.5, n + 1);
      FloorIs(100.0 - x + 0.5, if fraction == 0.5 then 100 - n else 99 - n);
    }
  }

  /** A percentage is its share to the nearest whole number. */
  lemma PercentageIsNear(amount: real, all: real)
    requires all != 0.0
    ensures var share := amount / all * 100.0;
            share - 0.5 < Percentage(amount, all) as real <= share + 0.5
  {
  }

  /** Rounded percentages of non-negative costs add up to 100, but to 101 when the shares end in a half. */
  lemma PercentagesAddUp(service: real, insurance: real)
    requires service >= 0.0 && insurance >= 0.0 && service + insurance > 0.0
    ensures var share := service / (service + insurance) * 100.0;
            PercentagesTotal(Categories(TotalsOf(service, insurance))) ==
            if share - share.Floor as real == 0.5 then 101 else 100
  {
    var all := service + insurance;
    TotalsOfParts(service, insurance);
    SharesAddUp(service, insurance);
    RoundedComplements(service / all * 100.0);
    NoShareOfNothing(all);
  }

  lemma NoShareOfNothing(all: real)
    requires all != 0.0
    ensures Percentage(0.0, all) == 0
  {
  }

  // ---------- Averages and projections ----------

  datatype Rate = Rate(monthly: real, yearly: real)

  function ToCents(x: real): real {
    Round(x * 100.0) as real / 100.0
  }

  function Average(total: real, n: nat): real
    requires n > 0
  {
    total / n as real
  }

  function RateOf(rows: seq<MonthlyCost>): Rate {
    if rows == [] then Rate(0.0, 0.0)
    else
      var average := Average(RowsTotal(rows), |rows|);
      Rate(ToCents(average), ToCents(average * 12.0))
  }

  function CalculateAverages(rows: seq<MonthlyCost>): Rate {
    RateOf(rows)
  }

  /** `slice(-3)`: the last three months that have a row. */
  function CalculateProjections(rows: seq<MonthlyCost>): Rate {
    RateOf(if |rows| <= 3 then rows else rows[|rows| - 3..])
  }

  predicate ToTheCent(shown: real, exact: real) {
    exact - 0.005 < shown <= exact + 0.005
  }

  /** A monthly and a yearly figure for a total spent in some months. */
  predicate Spreads(rate: Rate, total: real, months: nat)
    requires months > 0
  {
    ToTheCent(rate.monthly, Average(total, months)) && ToTheCent(rate.yearly, 12.0 * Average(total, months))
  }

  lemma CentsAreNear(x: real)
    ensures ToTheCent(ToCents(x), x)
  {
  }

  lemma RateSpreads(rows: seq<MonthlyCost>, total: real)
    requires rows != [] && RowsTotal(rows) == total
    ensures Spreads(RateOf(rows), total, |rows|)
  {
    var average := Average(total, |rows|);
    CentsAreNear(average);
    CentsAreNear(average * 12.0);
  }

  /** The averages are all costs spread over the months with a row, per month and per twelve months. */
  lemma AverageSpreadsTheTotal(rows: seq<MonthlyCost>, service: seq<MonthTotal>, insurance: seq<MonthTotal>)
    requires IsMerge(rows, service, insurance) && rows != []
    ensures Spreads(CalculateAverages(rows), Sum(service) + Sum(insurance), |rows|)
  {
    MergeConservesCosts(rows, service, insurance);
    RateSpreads(rows, Sum(service) + Sum(insurance));
  }

  /** The latest months, at most `n` of them, for which there are records. */
  ghost predicate LatestMonths(months: seq<Month>, n: nat, service: seq<MonthTotal>, insurance: seq<MonthTotal>) {
    && Distinct(months) && |months| <= n
    && (forall m | m in months :: HasMonth(service, m) || HasMonth(insurance, m))
    && (forall other, m | m in months && other !in months && (HasMonth(service, other) || HasMonth(insurance, other)) ::
          |months| == n && Earlier(other, m))
  }

  function LastMonths(rows: seq<MonthlyCost>, n: nat): (months: seq<Month>)
    ensures |months| == Min(n, |rows|)
  {
    MonthsOf(rows)[|rows| - Min(n, |rows|)..]
  }

  lemma LastMonthAt(rows: seq<MonthlyCost>, n: nat, i: nat)
    requires i < |LastMonths(rows, n)|
    ensures LastMonths(rows, n)[i] == MonthOf(rows[|rows| - Min(n, |rows|) + i])
  {
  }

  lemma AmongLast(rows: seq<MonthlyCost>, n: nat, j: nat)
    requires |rows| - Min(n, |rows|) <= j < |rows|
    ensures MonthOf(rows[j]) in LastMonths(rows, n)
  {
    LastMonthAt(rows, n, j - (|rows| - Min(n, |rows|)));
  }

  lemma LastAreDistinct(rows: seq<MonthlyCost>, service: seq<MonthTotal>, insurance: seq<MonthTotal>, n: nat)
    requires IsMerge(rows, service, insurance)
    ensures Distinct(LastMonths(rows, n))
  {
  }

  lemma EarlierThanLast(rows: seq<MonthlyCost>, service: seq<MonthTotal>, insurance: seq<MonthTotal>, n: nat,
                        other: Month, i: nat)
    requires IsMerge(rows, service, insurance) && i < |LastMonths(rows, n)|
    requires (HasMonth(service, other) || HasMonth(insurance, other)) && other !in LastMonths(rows, n)
    ensures |LastMonths(rows, n)| == n && Earlier(other, LastMonths(rows, n)[i])
  {
    var j :| 0 <= j < |rows| && MonthOf(rows[j]) == other;
    LastMonthAt(rows, n, i);
    if |rows| - Min(n, |rows|) <= j {
      AmongLast(rows, n, j);
    }
  }

  lemma LastAreLatest(rows: seq<MonthlyCost>, service: seq<MonthTotal>, insurance: seq<MonthTotal>, n: nat)
    requires IsMerge(rows, service, insurance)
    ensures LatestMonths(LastMonths(rows, n), n, service, insurance)
  {
    var months := LastMonths(rows, n);
    LastAreDistinct(rows, service, insurance, n);
    forall m | m in months
      ensures HasMonth(service, m) || HasMonth(insurance, m)
      ensures forall other | other !in months && (HasMonth(service, other) || HasMonth(insurance, other)) ::
                |months| == n && Earlier(other, m)
    {
      var i :| 0 <= i < |months| && months[i] == m;
      LastMonthAt(rows, n, i);
      forall other | other !in months && (HasMonth(service, other) || HasMonth(insurance, other))
        ensures |months| == n && Earlier(other, m)
      {
        EarlierThanLast(rows, service, insurance, n, other, i);
      }
    }
  }

  lemma LastRowsSplit(rows: seq<MonthlyCost>, service: seq<MonthTotal>, insurance: seq<MonthTotal>, n: nat)
    requires IsMerge(rows, service, insurance)
    ensures RowsTotal(rows[|rows| - Min(n, |rows|)..])
         == SumOver(LastMonths(rows, n), service) + SumOver(LastMonths(rows, n), insurance)
  {
    var last := rows[|rows| - Min(n, |rows|)..];
    assert MonthsOf(last) == LastMonths(rows, n);
    RowsSplit(last, service, insurance);
  }

  lemma ProjectionSpreads(rows: seq<MonthlyCost>, total: real)
    requires rows != [] && RowsTotal(rows[|rows| - Min(3, |rows|)..]) == total
    ensures Spreads(CalculateProjections(rows), total, |LastMonths(rows, 3)|)
  {
  }

  /** A rate is the costs of the latest three months with a record, spread over them. */
  ghost predicate ProjectedFrom(rate: Rate, latest: seq<Month>, service: seq<MonthTotal>, insurance: seq<MonthTotal>) {
    && LatestMonths(latest, 3, service, insurance) && latest != []
    && Spreads(rate, SumOver(latest, service) + SumOver(latest, insurance), |latest|)
  }

  lemma ProjectionSpreadsTheLatest(rows: seq<MonthlyCost>, service: seq<MonthTotal>, insurance: seq<MonthTotal>)
    requires IsMerge(rows, service, insurance) && rows != []
    ensures ProjectedFrom(CalculateProjections(rows), LastMonths(rows, 3), service, insurance)
  {
    var latest := LastMonths(rows, 3);
    LastAreLatest(rows, service, insurance, 3);
    LastRowsSplit(rows, service, insurance, 3);
    ProjectionSpreads(rows, SumOver(latest, service) + SumOver(latest, insurance));
  }

  /** What the two rates mean when there are rows. */
  ghost predicate RatesMean(rows: seq<MonthlyCost>, averages: Rate, projections: Rate,
                            service: seq<MonthTotal>, insurance: seq<MonthTotal>)
  {
    rows != [] ==>
      && Spreads(averages, Sum(service) + Sum(insurance), |rows|)
      && ProjectedFrom(projections, LastMonths(rows, 3), service, insurance)
  }

  lemma RatesAreRight(rows: seq<MonthlyCost>, service: seq<MonthTotal>, insurance: seq<MonthTotal>)
    requires IsMerge(rows, service, insurance)
    ensures RatesMean(rows, CalculateAverages(rows), CalculateProjections(rows), service, insurance)
  {
    if rows != [] {
      AverageSpreadsTheTotal(rows, service, insurance);
      ProjectionSpreadsTheLatest(rows, service, insurance);
    }
  }

  // ---------- Cost per kilometre and per day ----------

  function CostPerKm(all: real, mileage: Option<nat>): real {
    if mileage.Some? && mileage.value > 0 then all / mileage.value as real else 0.0
  }

  /** Where there is a mileage, the cost per kilometre times the kilometres is the total. */
  lemma CostPerKmSpreadsTheTotal(all: real, mileage: Option<nat>)
    ensures if mileage.GetOr(0) > 0 then CostPerKm(all, mileage) * mileage.value as real == all
            else CostPerKm(all, mileage) == 0.0
  {
  }

  function Sooner(a: Option<Millis>, b: Option<Millis>): Option<Millis> {
    if a.None? || (b.Some? && b.value < a.value) then b else a
  }

  /** `MIN` over the records. */
  function OldestDate(charges: seq<Charge>): Option<Millis> {
    if charges == [] then None else Sooner(OldestDate(charges[1..]), Some(charges[0].at))
  }

  lemma {:induction false} OldestIsLeast(charges: seq<Charge>)
    ensures OldestDate(charges) == None <==> charges == []
    ensures charges != [] ==>
              && (exists i | 0 <= i < |charges| :: charges[i].at == OldestDate(charges).value)
              && (forall i | 0 <= i < |charges| :: OldestDate(charges).value <= charges[i].at)
  {
    if charges != [] {
      var rest := charges[1..];
      OldestIsLeast(rest);
      assert forall i | 0 < i < |charges| :: charges[i] == rest[i - 1];
      if rest != [] {
        var i :| 0 <= i < |rest| && rest[i].at == OldestDate(rest).value;
        assert charges[i + 1].at == OldestDate(rest).value;
      }
    }
  }

  function DaysSince(oldest: Option<Millis>, now: Millis): int {
    if oldest.Some? then (now - oldest.value) / MILLIS_PER_DAY else 0
  }

  function CostPerDay(all: real, oldest: Option<Millis>, now: Millis): real {
    if DaysSince(oldest, now) > 0 then all / DaysSince(oldest, now) as real else 0.0
  }

  lemma SomeoneIsOldest(service: seq<Charge>, insurance: seq<Charge>)
    requires Sooner(OldestDate(service), OldestDate(insurance)).Some?
    ensures var all, oldest := service + insurance, Sooner(OldestDate(service), OldestDate(insurance)).value;
            && (exists i | 0 <= i < |all| :: all[i].at == oldest)
            && (forall i | 0 <= i < |all| :: oldest <= all[i].at)
  {
    OldestIsLeast(service);
    OldestIsLeast(insurance);
    var oldest := Sooner(OldestDate(service), OldestDate(insurance));
    if oldest == OldestDate(service) {
      var i :| 0 <= i < |service| && service[i].at == oldest.value;
      assert (service + insurance)[i] == service[i];
    } else {
      var i :| 0 <= i < |insurance| && insurance[i].at == oldest.value;
      assert (service + insurance)[|service| + i] == insurance[i];
    }
  }

  /** The days since the oldest record are the full days since then. */
  lemma DaysAreFull(oldest: Millis, now: Millis, n: int)
    ensures n <= DaysSince(Some(oldest), now) <==> oldest + n * MILLIS_PER_DAY <= now
  {
  }

  /** There are days to spread a total over exactly when some record is a day old. */
  lemma HasDaysExactly(service: seq<Charge>, insurance: seq<Charge>, now: Millis)
    ensures DaysSince(Sooner(OldestDate(service), OldestDate(insurance)), now) >= 1 <==>
            exists i | 0 <= i < |service + insurance| :: (service + insurance)[i].at + MILLIS_PER_DAY <= now
  {
    var oldest := Sooner(OldestDate(service), OldestDate(insurance));
    if oldest.Some? {
      DaysAreFull(oldest.value, now, 1);
      SomeoneIsOldest(service, insurance);
    } else {
      OldestIsLeast(service);
      OldestIsLeast(insurance);
    }
  }

  /** Then the daily cost times the days is the total; otherwise it is shown as 0. */
  lemma CostPerDaySpreadsTheTotal(all: real, oldest: Option<Millis>, now: Millis)
    ensures if DaysSince(oldest, now) >= 1 then CostPerDay(all, oldest, now) * DaysSince(oldest, now) as real == all
            else CostPerDay(all, oldest, now) == 0.0
  {
  }

  // ---------- All of it ----------

  datatype CostAnalytics = CostAnalytics(
    totalCosts: TotalCosts,
    monthlyCosts: seq<MonthlyCost>,
    categoryBreakdown: seq<CategoryCost>,
    averages: Rate,
    projections: Rate,
    costPerKm: real,
    costPerDay: real)

  predicate AllInCalendar(charges: seq<Charge>) {
    forall i | 0 <= i < |charges| :: InCalendar(charges[i].month)
  }

  lemma {:induction false} RecordedInCalendar(charges: seq<Charge>, m: Month)
    requires AllInCalendar(charges) && HasMonth(Recorded(charges), m)
    ensures InCalendar(m)
  {
    HeadAndTail(Recorded(charges), m);
    if HasMonth(Recorded(charges[1..]), m) {
      RecordedInCalendar(charges[1..], m);
    }
  }

  lemma BreakdownIsOncePerMonth(charges: seq<Charge>)
    requires AllInCalendar(charges)
    ensures OncePerCalendarMonth(MonthlyBreakdown(charges))
  {
    var groups := MonthlyBreakdown(charges);
    forall i | 0 <= i < |groups|
      ensures InCalendar(groups[i].month)
    {
      GroupIsGroupBy(Recorded(charges), groups[i].month);
      RecordedInCalendar(charges, groups[i].month);
    }
    GroupIsGroupBy(Recorded(charges), Month(0, 0));
    forall i, j | 0 <= i < j < |groups|
      ensures groups[i].month != groups[j].month
    {
      assert Earlier(groups[i].month, groups[j].month);
    }
  }

  method CalculateCostAnalytics(service: seq<Charge>, insurance: seq<Charge>, mileage: Option<nat>, now: Millis)
    returns (a: CostAnalytics)
    requires AllInCalendar(service) && AllInCalendar(insurance)
    ensures a.totalCosts == TotalsOf(CostOf(service), CostOf(insurance))
    ensures IsMerge(a.monthlyCosts, Recorded(service), Recorded(insurance))
    ensures RowsTotal(a.monthlyCosts) == CostOf(service) + CostOf(insurance)
    ensures AmountsTotal(a.categoryBreakdown) == CostOf(service) + CostOf(insurance) <==>
            (CostOf(service) >= 0.0 && CostOf(insurance) >= 0.0) || CostOf(service) + CostOf(insurance) == 0.0
    ensures a.categoryBreakdown == Categories(a.totalCosts)
    ensures a.averages == CalculateAverages(a.monthlyCosts) && a.projections == CalculateProjections(a.monthlyCosts)
    ensures RatesMean(a.monthlyCosts, a.averages, a.projections, Recorded(service), Recorded(insurance))
    ensures a.costPerKm == CostPerKm(a.totalCosts.all, mileage)
    ensures a.costPerDay == CostPerDay(a.totalCosts.all, Sooner(OldestDate(service), OldestDate(insurance)), now)
  {
    var totals := TotalsOf(CostOf(service), CostOf(insurance));
    BreakdownIsOncePerMonth(service);
    BreakdownIsOncePerMonth(insurance);
    var rows := MergeMonthlyBreakdowns(MonthlyBreakdown(service), MonthlyBreakdown(insurance));
    MergeOfGroups(rows, Recorded(service), Recorded(insurance));
    MergeConservesCosts(rows, Recorded(service), Recorded(insurance));
    RatesAreRight(rows, Recorded(service), Recorded(insurance));
    var categories := GenerateCategoryBreakdown(totals);
    AmountsAddUpExactlyWhen(CostOf(service), CostOf(insurance));
    var costPerKm := if mileage.Some? && mileage.value > 0 then totals.all / mileage.value as real else 0.0;
    var daysSinceStart := DaysSince(Sooner(OldestDate(service), OldestDate(insurance)), now);
    var costPerDay := if daysSinceStart > 0 then totals.all / daysSinceStart as real else 0.0;
    a := CostAnalytics(totals, rows, categories, CalculateAverages(rows), CalculateProjections(rows),
      costPerKm, costPerDay);
  }
}
