/** The blog's date archive: `date_list_to_archive_list` turns the publication
    dates of the posts into a list of `Year` groups, each a list of `Month`
    groups, each a list of `Day` entries that carry the number of posts on that
    day. Every level is built with `itertools.groupby`, so the archive follows
    the order of the input: nothing is sorted and runs that are not adjacent
    are not merged. */
module Archive {
  import opened Dates
  import opened Grouping
  import Decimal

  // ---------------------------------------------------------------------------
  // The archive's entities

  /** `Day`: a date that also records how many posts fall on it. */
  datatype Day = Day(date: Date, count: nat)

  /** `Month`: the list of its days; its `count` is a live sum over them. */
  datatype Month = Month(date: Date, days: seq<Day>) {
    function Count(): nat {
      SumDays(days)
    }
  }

  /** `Year`: the list of its months; its `count` is a live sum over them. */
  datatype Year = Year(date: Date, months: seq<Month>) {
    function Count(): nat {
      SumMonths(months)
    }
  }

  function SumDays(ds: seq<Day>): nat {
    if ds == [] then 0 else ds[0].count + SumDays(ds[1..])
  }

  function SumMonths(ms: seq<Month>): nat {
    if ms == [] then 0 else ms[0].Count() + SumMonths(ms[1..])
  }

  /** The number of posts in the whole archive: the sum of the years' counts. */
  function ArchiveCount(ys: seq<Year>): nat {
    if ys == [] then 0 else ys[0].Count() + ArchiveCount(ys[1..])
  }

  // ---------------------------------------------------------------------------
  // Shape of an archive

  /** No empty day, every day lies in its month, neighbouring days differ. */
  ghost predicate WellFormedMonth(m: Month) {
    && m.date.day == 1
    && |m.days| > 0
    && (forall i :: 0 <= i < |m.days| ==>
          m.days[i].count >= 1 && m.days[i].date.year == m.date.year && m.days[i].date.month == m.date.month)
    && (forall i :: 0 <= i < |m.days| - 1 ==> m.days[i].date.day != m.days[i + 1].date.day)
  }

  /** No empty month, every month lies in its year, neighbouring months differ. */
  ghost predicate WellFormedYear(y: Year) {
    && y.date.month == 1 && y.date.day == 1
    && |y.months| > 0
    && (forall i :: 0 <= i < |y.months| ==> WellFormedMonth(y.months[i]) && y.months[i].date.year == y.date.year)
    && (forall i :: 0 <= i < |y.months| - 1 ==> y.months[i].date.month != y.months[i + 1].date.month)
  }

  /** Every year well formed, neighbouring years differ. */
  ghost predicate WellFormedArchive(ys: seq<Year>) {
    && (forall i :: 0 <= i < |ys| ==> WellFormedYear(ys[i]))
    && (forall i :: 0 <= i < |ys| - 1 ==> ys[i].date.year != ys[i + 1].date.year)
  }

  // ---------------------------------------------------------------------------
  // Building the archive

  /** `Day(year, month, day, posts)`: the count is the length of the run. */
  function MakeDay(year: int, month: int, day: int, posts: seq<Date>): Day {
    Day(Date(year, month, day), |posts|)
  }

  function MakeDays(year: int, month: int, gs: seq<Group>): seq<Day> {
    seq(|gs|, i requires 0 <= i < |gs| => MakeDay(year, month, gs[i].key, gs[i].items))
  }

  /** `Month(year, month, days)`: groups its run by day. Its date is the first
      of the month; a month built from a non-empty run is well formed. */
  function MakeMonth(year: int, month: int, days: seq<Date>): (r: Month)
    ensures r.date == Date(year, month, 1)
    ensures days != [] ==> WellFormedMonth(r)
  {
    GroupByRuns(days, DayField);
    GroupByMaximal(days, DayField);
    Month(Date(year, month, 1), MakeDays(year, month, GroupBy(days, DayField)))
  }

  function MakeMonths(year: int, gs: seq<Group>): seq<Month> {
    seq(|gs|, i requires 0 <= i < |gs| => MakeMonth(year, gs[i].key, gs[i].items))
  }

  /** `Year(year, months)`: groups its run by month. Its date is 1 January;
      a year built from a non-empty run is well formed. */
  function MakeYear(year: int, months: seq<Date>): (r: Year)
    ensures r.date == Date(year, 1, 1)
    ensures months != [] ==> WellFormedYear(r)
  {
    GroupByRuns(months, MonthField);
    GroupByMaximal(months, MonthField);
    Year(Date(year, 1, 1), MakeMonths(year, GroupBy(months, MonthField)))
  }

  function MakeYears(gs: seq<Group>): seq<Year> {
    seq(|gs|, i requires 0 <= i < |gs| => MakeYear(gs[i].key, gs[i].items))
  }

  /** `date_list_to_archive_list(values)`: the archive is well formed, it is
      empty exactly when the input is, and flattening it gives back the input
      in order. */
  function DateListToArchiveList(values: seq<Date>): (r: seq<Year>)
    ensures WellFormedArchive(r)
    ensures (r == []) == (values == [])
    ensures FlattenYears(r) == values
  {
    GroupByRuns(values, YearField);
    GroupByMaximal(values, YearField);
    YearsRoundTrip(values);
    MakeYears(GroupBy(values, YearField))
  }

  // ---------------------------------------------------------------------------
  // Flattening: each day's date repeated `count` times, days, months and
  // years taken in order

  function Repeat(d: Date, n: nat): (r: seq<Date>)
    ensures |r| == n && forall i :: 0 <= i < n ==> r[i] == d
  {
    seq(n, _ => d)
  }

  function DayRun(d: Day): Group {
    Group(d.date.day, Repeat(d.date, d.count))
  }

  function DayRuns(ds: seq<Day>): seq<Group> {
    seq(|ds|, i requires 0 <= i < |ds| => DayRun(ds[i]))
  }

  function FlattenDays(ds: seq<Day>): seq<Date> {
    Concat(DayRuns(ds))
  }

  function MonthRun(m: Month): Group {
    Group(m.date.month, FlattenDays(m.days))
  }

  function MonthRuns(ms: seq<Month>): seq<Group> {
    seq(|ms|, i requires 0 <= i < |ms| => MonthRun(ms[i]))
  }

  function FlattenMonths(ms: seq<Month>): seq<Date> {
    Concat(MonthRuns(ms))
  }

  function YearRun(y: Year): Group {
    Group(y.date.year, FlattenMonths(y.months))
  }

  function YearRuns(ys: seq<Year>): seq<Group> {
    seq(|ys|, i requires 0 <= i < |ys| => YearRun(ys[i]))
  }

  function FlattenYears(ys: seq<Year>): seq<Date> {
    Concat(YearRuns(ys))
  }

  // ---------------------------------------------------------------------------
  // Round trip: flattening the archive gives back the input

  /** A day built from a run of one date flattens back to that run. */
  lemma DayRoundTrip(year: int, month: int, g: Group)
    requires forall j :: 0 <= j < |g.items| ==>
      g.items[j].year == year && g.items[j].month == month && g.items[j].day == g.key
    ensures DayRun(MakeDay(year, month, g.key, g.items)) == g
  {
    SeqEqual(Repeat(Date(year, month, g.key), |g.items|), g.items);
  }

  /** A month built from dates of that month flattens back to them. */
  lemma MonthRoundTrip(year: int, month: int, days: seq<Date>)
    requires forall i :: 0 <= i < |days| ==> days[i].year == year && days[i].month == month
    ensures FlattenDays(MakeMonth(year, month, days).days) == days
  {
    var gs := GroupBy(days, DayField);
    var runs := DayRuns(MakeMonth(year, month, days).days);
    GroupByRuns(days, DayField);
    forall i | 0 <= i < |gs| ensures runs[i] == gs[i] {
      var lo := GroupByPiece(days, DayField, i);
      DayRoundTrip(year, month, gs[i]);
    }
    SeqEqual(runs, gs);
    GroupByConcat(days, DayField);
  }

  /** A year built from dates of that year flattens back to them. */
  lemma YearRoundTrip(year: int, months: seq<Date>)
    requires forall i :: 0 <= i < |months| ==> months[i].year == year
    ensures FlattenMonths(MakeYear(year, months).months) == months
  {
    var gs := GroupBy(months, MonthField);
    var runs := MonthRuns(MakeYear(year, months).months);
    GroupByRuns(months, MonthField);
    forall i | 0 <= i < |gs| ensures runs[i] == gs[i] {
      var lo := GroupByPiece(months, MonthField, i);
      MonthRoundTrip(year, gs[i].key, gs[i].items);
    }
    SeqEqual(runs, gs);
    GroupByConcat(months, MonthField);
  }

  /** The archive built from `values` flattens back to `values`. */
  lemma YearsRoundTrip(values: seq<Date>)
    ensures FlattenYears(MakeYears(GroupBy(values, YearField))) == values
  {
    var gs := GroupBy(values, YearField);
    var runs := YearRuns(MakeYears(gs));
    GroupByRuns(values, YearField);
    forall i | 0 <= i < |gs| ensures runs[i] == gs[i] {
      YearRoundTrip(gs[i].key, gs[i].items);
    }
    SeqEqual(runs, gs);
    GroupByConcat(values, YearField);
  }

  // ---------------------------------------------------------------------------
  // Key agreement: every post listed under a month (a year) has that month's
  // year and month (that year)

  lemma MonthDatesAgree(m: Month)
    requires WellFormedMonth(m)
    ensures |FlattenDays(m.days)| > 0
    ensures forall j :: 0 <= j < |FlattenDays(m.days)| ==>
      FlattenDays(m.days)[j].year == m.date.year && FlattenDays(m.days)[j].month == m.date.month
  {
    var runs := DayRuns(m.days);
    ConcatStep(runs);
    ConcatKeys(runs, YearField, m.date.year);
    ConcatKeys(runs, MonthField, m.date.month);
  }

  lemma YearDatesAgree(y: Year)
    requires WellFormedYear(y)
    ensures |FlattenMonths(y.months)| > 0
    ensures forall j :: 0 <= j < |FlattenMonths(y.months)| ==> FlattenMonths(y.months)[j].year == y.date.year
  {
    var runs := MonthRuns(y.months);
    forall i | 0 <= i < |runs|
      ensures |runs[i].items| > 0
      ensures forall j :: 0 <= j < |runs[i].items| ==> runs[i].items[j].year == y.date.year
    {
      MonthDatesAgree(y.months[i]);
    }
    ConcatStep(runs);
    ConcatKeys(runs, YearField, y.date.year);
  }

  // ---------------------------------------------------------------------------
  // Round trip the other way: the archive is the one canonical grouping

  /** A well-formed month is what `Month` builds from its own posts. */
  lemma MonthOfFlatten(m: Month)
    requires WellFormedMonth(m)
    ensures MakeMonth(m.date.year, m.date.month, FlattenDays(m.days)) == m
  {
    var runs := DayRuns(m.days);
    GroupByOfConcat(runs, DayField);
    var ds := MakeDays(m.date.year, m.date.month, runs);
    forall i | 0 <= i < |ds| ensures ds[i] == m.days[i] {
      assert runs[i] == DayRun(m.days[i]);
    }
    SeqEqual(ds, m.days);
  }

  /** A well-formed year is what `Year` builds from its own posts. */
  lemma YearOfFlatten(y: Year)
    requires WellFormedYear(y)
    ensures MakeYear(y.date.year, FlattenMonths(y.months)) == y
  {
    var runs := MonthRuns(y.months);
    forall i | 0 <= i < |runs|
      ensures |runs[i].items| > 0
      ensures forall j :: 0 <= j < |runs[i].items| ==> runs[i].items[j].month == runs[i].key
    {
      MonthDatesAgree(y.months[i]);
    }
    GroupByOfConcat(runs, MonthField);
    var ms := MakeMonths(y.date.year, runs);
    forall i | 0 <= i < |ms| ensures ms[i] == y.months[i] {
      assert runs[i] == MonthRun(y.months[i]);
      MonthOfFlatten(y.months[i]);
    }
    SeqEqual(ms, y.months);
  }

  /** Any well-formed archive is what the grouper builds from its own
      flattening, so no two well-formed archives list the same posts. */
  lemma ArchiveOfFlatten(a: seq<Year>)
    requires WellFormedArchive(a)
    ensures DateListToArchiveList(FlattenYears(a)) == a
  {
    var runs := YearRuns(a);
    forall i | 0 <= i < |runs|
      ensures |runs[i].items| > 0
      ensures forall j :: 0 <= j < |runs[i].items| ==> runs[i].items[j].year == runs[i].key
    {
      YearDatesAgree(a[i]);
    }
    GroupByOfConcat(runs, YearField);
    var ys := MakeYears(runs);
    forall i | 0 <= i < |ys| ensures ys[i] == a[i] {
      assert runs[i] == YearRun(a[i]);
      YearOfFlatten(a[i]);
    }
    SeqEqual(ys, a);
  }

  // ---------------------------------------------------------------------------
  // Counts

  lemma DayRunsTail(ds: seq<Day>)
    requires ds != []
    ensures FlattenDays(ds) == Repeat(ds[0].date, ds[0].count) + FlattenDays(ds[1..])
  {
    SeqEqual(DayRuns(ds)[1..], DayRuns(ds[1..]));
    ConcatStep(DayRuns(ds));
  }

  lemma MonthRunsTail(ms: seq<Month>)
    requires ms != []
    ensures FlattenMonths(ms) == FlattenDays(ms[0].days) + FlattenMonths(ms[1..])
  {
    SeqEqual(MonthRuns(ms)[1..], MonthRuns(ms[1..]));
    ConcatStep(MonthRuns(ms));
  }

  lemma YearRunsTail(ys: seq<Year>)
    requires ys != []
    ensures FlattenYears(ys) == FlattenMonths(ys[0].months) + FlattenYears(ys[1..])
  {
    SeqEqual(YearRuns(ys)[1..], YearRuns(ys[1..]));
    ConcatStep(YearRuns(ys));
  }

  /** `Month.count` is the number of posts listed under the month. */
  lemma {:induction false} MonthCountIsPosts(ds: seq<Day>)
    ensures SumDays(ds) == |FlattenDays(ds)|
    decreases |ds|
  {
    if ds != [] {
      DayRunsTail(ds);
      MonthCountIsPosts(ds[1..]);
    }
  }

  /** `Year.count` is the number of posts listed under the year. */
  lemma {:induction false} YearCountIsPosts(ms: seq<Month>)
    ensures SumMonths(ms) == |FlattenMonths(ms)|
    decreases |ms|
  {
    if ms != [] {
      MonthRunsTail(ms);
      MonthCountIsPosts(ms[0].days);
      YearCountIsPosts(ms[1..]);
    }
  }

  /** The counts of all years add up to the number of posts in the archive. */
  lemma {:induction false} ArchiveCountIsPosts(ys: seq<Year>)
    ensures ArchiveCount(ys) == |FlattenYears(ys)|
    decreases |ys|
  {
    if ys != [] {
      YearRunsTail(ys);
      YearCountIsPosts(ys[0].months);
      ArchiveCountIsPosts(ys[1..]);
    }
  }

  /** The archive counts every input date exactly once. */
  lemma TotalCount(values: seq<Date>)
    ensures ArchiveCount(DateListToArchiveList(values)) == |values|
  {
    ArchiveCountIsPosts(DateListToArchiveList(values));
  }

  // ---------------------------------------------------------------------------
  // Sorted input: each year, month and day appears once, newest first

  /** A month built from newest-first dates of that month lists each day once,
      newest first. */
  lemma SortedMonth(year: int, month: int, run: seq<Date>)
    requires SortedDescending(run)
    requires forall i :: 0 <= i < |run| ==> run[i].year == year && run[i].month == month
    ensures var m := MakeMonth(year, month, run);
      forall i, j :: 0 <= i < j < |m.days| ==> m.days[i].date.day > m.days[j].date.day
  {
    var gs := GroupBy(run, DayField);
    var ds := MakeMonth(year, month, run).days;
    SortedDays(run, year, month);
    GroupByDescending(run, DayField);
    forall i, j | 0 <= i < j < |ds| ensures ds[i].date.day > ds[j].date.day {
      assert ds[i].date.day == gs[i].key && ds[j].date.day == gs[j].key;
    }
  }

  /** A year built from newest-first dates of that year lists each month
      once, newest first, and each month lists each day once, newest first. */
  lemma SortedYear(year: int, run: seq<Date>)
    requires SortedDescending(run)
    requires forall i :: 0 <= i < |run| ==> run[i].year == year
    ensures var y := MakeYear(year, run);
      forall i, j :: 0 <= i < j < |y.months| ==> y.months[i].date.month > y.months[j].date.month
    ensures var y := MakeYear(year, run);
      forall p, i, j :: 0 <= p < |y.months| && 0 <= i < j < |y.months[p].days| ==>
        y.months[p].days[i].date.day > y.months[p].days[j].date.day
  {
    var gs := GroupBy(run, MonthField);
    var ms := MakeYear(year, run).months;
    SortedMonths(run, year);
    GroupByDescending(run, MonthField);
    GroupByRuns(run, MonthField);
    forall p | 0 <= p < |ms|
      ensures forall i, j :: 0 <= i < j < |ms[p].days| ==> ms[p].days[i].date.day > ms[p].days[j].date.day
    {
      var lo := GroupByPiece(run, MonthField, p);
      GroupByKeepsOrder(run, MonthField, p);
      SortedMonth(year, gs[p].key, gs[p].items);
    }
  }

  /** On newest-first input each year, each month of a year and each day of a
      month appears in exactly one group, and the groups are newest first. */
  lemma SortedArchive(values: seq<Date>)
    requires SortedDescending(values)
    ensures var a := DateListToArchiveList(values);
      forall i, j :: 0 <= i < j < |a| ==> a[i].date.year > a[j].date.year
    ensures var a := DateListToArchiveList(values);
      forall k, i, j :: 0 <= k < |a| && 0 <= i < j < |a[k].months| ==> a[k].months[i].date.month > a[k].months[j].date.month
    ensures var a := DateListToArchiveList(values);
      forall k, p, i, j :: 0 <= k < |a| && 0 <= p < |a[k].months| && 0 <= i < j < |a[k].months[p].days| ==>
        a[k].months[p].days[i].date.day > a[k].months[p].days[j].date.day
  {
    var gs := GroupBy(values, YearField);
    var a := DateListToArchiveList(values);
    SortedYears(values);
    GroupByDescending(values, YearField);
    GroupByRuns(values, YearField);
    forall k | 0 <= k < |a|
      ensures forall i, j :: 0 <= i < j < |a[k].months| ==> a[k].months[i].date.month > a[k].months[j].date.month
      ensures forall p, i, j :: 0 <= p < |a[k].months| && 0 <= i < j < |a[k].months[p].days| ==>
        a[k].months[p].days[i].date.day > a[k].months[p].days[j].date.day
    {
      GroupByKeepsOrder(values, YearField, k);
      SortedYear(gs[k].key, gs[k].items);
    }
  }

  // ---------------------------------------------------------------------------
  // Group dates and the month keyword

  /** A day of the archive that counts at least one post is one of its posts. */
  lemma DayInArchive(a: seq<Year>, k: nat, p: nat, q: nat)
    requires k < |a| && p < |a[k].months| && q < |a[k].months[p].days|
    requires a[k].months[p].days[q].count >= 1
    ensures a[k].months[p].days[q].date in FlattenYears(a)
  {
    var m := a[k].months[p];
    ConcatHas(DayRuns(m.days), q);
    assert DayRuns(m.days)[q].items[0] == m.days[q].date;
    ConcatHas(MonthRuns(a[k].months), p);
    ConcatHas(YearRuns(a), k);
  }

  /** Every `Day` of the archive is one of the input dates. */
  lemma ArchiveDaysAreInputs(values: seq<Date>)
    ensures var a := DateListToArchiveList(values);
      forall k, p, q :: 0 <= k < |a| && 0 <= p < |a[k].months| && 0 <= q < |a[k].months[p].days| ==>
        a[k].months[p].days[q].date in values
  {
    var a := DateListToArchiveList(values);
    forall k, p, q | 0 <= k < |a| && 0 <= p < |a[k].months| && 0 <= q < |a[k].months[p].days|
      ensures a[k].months[p].days[q].date in values
    {
      DayInArchive(a, k, p, q);
    }
  }

  /** For genuine input dates every group's `date` is a genuine date: 1 January
      of its year, the first of its month. */
  lemma ArchiveDatesValid(values: seq<Date>)
    requires forall i :: 0 <= i < |values| ==> ValidDate(values[i])
    ensures var a := DateListToArchiveList(values);
      forall k, p :: 0 <= k < |a| && 0 <= p < |a[k].months| ==>
        ValidDate(a[k].months[p].date) && a[k].months[p].date == Date(a[k].date.year, a[k].months[p].date.month, 1)
    ensures var a := DateListToArchiveList(values);
      forall k :: 0 <= k < |a| ==> ValidDate(a[k].date) && a[k].date == Date(a[k].date.year, 1, 1)
  {
    var a := DateListToArchiveList(values);
    ArchiveDaysAreInputs(values);
    forall k, p | 0 <= k < |a| && 0 <= p < |a[k].months|
      ensures ValidDate(a[k].months[p].date)
    {
      MonthDateValid(values, a[k], a[k].months[p]);
    }
    forall k | 0 <= k < |a| ensures ValidDate(a[k].date) {
      MonthDateValid(values, a[k], a[k].months[0]);
    }
  }

  /** The first of the month of a genuine day, and 1 January of its year, are
      genuine dates. */
  lemma MonthDateValid(values: seq<Date>, y: Year, m: Month)
    requires forall i :: 0 <= i < |values| ==> ValidDate(values[i])
    requires WellFormedYear(y) && WellFormedMonth(m) && m.date.year == y.date.year
    requires m.days[0].date in values
    ensures ValidDate(m.date) && ValidDate(y.date)
  {
    var x := m.days[0].date;
    var i :| 0 <= i < |values| && values[i] == x;
  }

  /** The `month` keyword of `Month.get_absolute_url`: exactly two digits,
      zero-padded, reading back as the month. */
  function MonthKeyword(m: Month): (r: string)
    requires 1 <= m.date.month <= 12
    ensures |r| == 2 && Decimal.AllDigits(r)
    ensures Decimal.ParseDecimal(r) == m.date.month
  {
    Decimal.ZeroPad2(m.date.month)
  }

  // ---------------------------------------------------------------------------
  // Worked examples

  /** The archive of the newest-first example. */
  function SortedExampleArchive(): seq<Year> {
    [Year(Date(2024, 1, 1), [Month(Date(2024, 3, 1), [Day(Date(2024, 3, 15), 2), Day(Date(2024, 3, 2), 1)]),
                             Month(Date(2024, 1, 1), [Day(Date(2024, 1, 20), 1)])]),
     Year(Date(2023, 1, 1), [Month(Date(2023, 12, 1), [Day(Date(2023, 12, 31), 1)])])]
  }

  lemma SortedExampleFlattens()
    ensures FlattenYears(SortedExampleArchive())
         == [Date(2024, 3, 15), Date(2024, 3, 15), Date(2024, 3, 2), Date(2024, 1, 20), Date(2023, 12, 31)]
  {
    var a := SortedExampleArchive();
    var march := a[0].months[0].days;
    DayRunsTail(march);
    DayRunsTail(march[1..]);
    DayRunsTail(a[0].months[1].days);
    DayRunsTail(a[1].months[0].days);
    assert Repeat(Date(2024, 3, 15), 2) == [Date(2024, 3, 15), Date(2024, 3, 15)];
    MonthRunsTail(a[0].months);
    MonthRunsTail(a[0].months[1..]);
    MonthRunsTail(a[1].months);
    YearRunsTail(a);
    YearRunsTail(a[1..]);
  }

  lemma SortedExampleWellFormed()
    ensures WellFormedArchive(SortedExampleArchive())
  {
    var a := SortedExampleArchive();
    assert WellFormedMonth(a[0].months[0]);
    assert WellFormedMonth(a[0].months[1]);
    assert WellFormedMonth(a[1].months[0]);
    assert WellFormedYear(a[0]);
    assert WellFormedYear(a[1]);
  }

  /** Newest-first input: two years, the first with two months. */
  lemma ExampleSorted()
    ensures DateListToArchiveList([Date(2024, 3, 15), Date(2024, 3, 15), Date(2024, 3, 2), Date(2024, 1, 20), Date(2023, 12, 31)])
         == [Year(Date(2024, 1, 1), [Month(Date(2024, 3, 1), [Day(Date(2024, 3, 15), 2), Day(Date(2024, 3, 2), 1)]),
                                     Month(Date(2024, 1, 1), [Day(Date(2024, 1, 20), 1)])]),
             Year(Date(2023, 1, 1), [Month(Date(2023, 12, 1), [Day(Date(2023, 12, 31), 1)])])]
  {
    SortedExampleFlattens();
    SortedExampleWellFormed();
    ArchiveOfFlatten(SortedExampleArchive());
  }

  /** Input out of order: the same year appears in two separate groups. */
  lemma ExampleUnsorted()
    ensures DateListToArchiveList([Date(2024, 1, 1), Date(2023, 1, 1), Date(2024, 1, 1)])
         == [Year(Date(2024, 1, 1), [Month(Date(2024, 1, 1), [Day(Date(2024, 1, 1), 1)])]),
             Year(Date(2023, 1, 1), [Month(Date(2023, 1, 1), [Day(Date(2023, 1, 1), 1)])]),
             Year(Date(2024, 1, 1), [Month(Date(2024, 1, 1), [Day(Date(2024, 1, 1), 1)])])]
  {
    var y2024 := Year(Date(2024, 1, 1), [Month(Date(2024, 1, 1), [Day(Date(2024, 1, 1), 1)])]);
    var y2023 := Year(Date(2023, 1, 1), [Month(Date(2023, 1, 1), [Day(Date(2023, 1, 1), 1)])]);
    DayRunsTail(y2024.months[0].days);
    DayRunsTail(y2023.months[0].days);
    MonthRunsTail(y2024.months);
    MonthRunsTail(y2023.months);
    var a := [y2024, y2023, y2024];
    YearRunsTail(a);
    YearRunsTail(a[1..]);
    YearRunsTail(a[2..]);
    assert FlattenYears(a) == [Date(2024, 1, 1), Date(2023, 1, 1), Date(2024, 1, 1)];
    ArchiveOfFlatten(a);
  }
}
