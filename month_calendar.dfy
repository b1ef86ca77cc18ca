/**
 * The month calendar: a seven-column grid headed Monday to Sunday, blank
 * cells before the first of the month, then one cell per day showing the
 * day's total, with a dot coloured by the day's top category whose opacity
 * grows with the day's share of the busiest day.
 */
module Calendar {
  import opened Records
  import opened Tally
  import opened Ranking
  import opened Breakdown

  /** The column headers. */
  const Weekdays: seq<string> := ["Mon", "Tue", "Wed", "Thu", "Fri", "Sat", "Sun"]

  /** The name of a weekday numbered as `getDay` numbers it (Sunday 0). */
  function DayName(w: int): string
    requires 0 <= w < 7
  {
    ["Sun", "Mon", "Tue", "Wed", "Thu", "Fri", "Sat"][w]
  }

  /** A cell of the grid. */
  datatype Cell = Blank | DayCell(date: Day)

  /** What the map holds for a date: its total and its per-category subtotals. */
  datatype DaySummary = DaySummary(total: real, categories: seq<Entry<string>>)

  /**
   * `(getDay(start) + 6) % 7`: the number of blank cells before the first of
   * the month when weeks start on Monday; none when the month starts on a
   * Monday, six when it starts on a Sunday.
   */
  function LeadingBlanks(monthStart: Day): (n: nat)
    ensures n < 7
    ensures Weekday(monthStart) == 1 ==> n == 0
    ensures Weekday(monthStart) == 0 ==> n == 6
    ensures Weekdays[n] == DayName(Weekday(monthStart))
  {
    (Weekday(monthStart) + 6) % 7
  }

  /**
   * The grid's cells: the leading blanks, then every day from the first to
   * the last of the month, in order. The date library's month has its start
   * on or before its end.
   */
  function Cells(monthStart: Day, monthEnd: Day): (cells: seq<Cell>)
    requires monthStart <= monthEnd
    ensures |cells| == LeadingBlanks(monthStart) + (monthEnd - monthStart + 1)
    ensures forall i :: 0 <= i < |cells| ==> (cells[i].Blank? <==> i < LeadingBlanks(monthStart))
    ensures forall i :: 0 <= i < |cells| && cells[i].DayCell? ==> monthStart <= cells[i].date <= monthEnd
    ensures forall i, j :: 0 <= i < j < |cells| && cells[i].DayCell? && cells[j].DayCell? ==>
              cells[i].date < cells[j].date
  {
    var blanks := LeadingBlanks(monthStart);
    seq(blanks, _ => Blank) + seq(monthEnd - monthStart + 1, k => DayCell(monthStart + k))
  }

  lemma ModShift(a: int, b: int)
    ensures (a % 7 + b) % 7 == (a + b) % 7
  {
    var q := a / 7;
    assert a == 7 * q + a % 7;
    assert a + b == 7 * q + (a % 7 + b);
  }

  /** The header of column `(w + 6) % 7` names weekday `w`. */
  lemma HeaderNames(w: int)
    requires 0 <= w < 7
    ensures Weekdays[(w + 6) % 7] == DayName(w)
  {
  }

  /** The cell of day `d`, after the blanks, falls in column `(Weekday(d) + 6) % 7`. */
  lemma CellColumn(monthStart: Day, d: Day)
    ensures (LeadingBlanks(monthStart) + (d - monthStart)) % 7 == (Weekday(d) + 6) % 7
  {
    var k := d - monthStart;
    calc {
      (LeadingBlanks(monthStart) + k) % 7;
      ((Weekday(monthStart) + 6) % 7 + k) % 7;
      { ModShift(Weekday(monthStart) + 6, k); }
      (Weekday(monthStart) + 6 + k) % 7;
      { ModShift(monthStart + 4, 6 + k); }
      (monthStart + 4 + 6 + k) % 7;
      { ModShift(d + 4, 6); }
      (Weekday(d) + 6) % 7;
    }
  }

  /**
   * Every day of the month is in the grid exactly once, and its cell sits in
   * the column whose header names its weekday.
   */
  lemma CellsLayout(monthStart: Day, monthEnd: Day, d: Day)
    requires monthStart <= d <= monthEnd
    ensures var cells := Cells(monthStart, monthEnd);
            exists i :: 0 <= i < |cells| && cells[i] == DayCell(d)
                        && Weekdays[i % 7] == DayName(Weekday(d))
                        && forall j :: 0 <= j < |cells| && j != i ==> cells[j] != DayCell(d)
  {
    var cells := Cells(monthStart, monthEnd);
    var blanks := LeadingBlanks(monthStart);
    var i := blanks + (d - monthStart);
    assert cells[i] == DayCell(d);
    CellColumn(monthStart, d);
    HeaderNames(Weekday(d));
    forall j | 0 <= j < |cells| && j != i ensures cells[j] != DayCell(d) {
      if j >= blanks {
        assert cells[j] == DayCell(monthStart + j - blanks);
      }
    }
    assert 0 <= i < |cells| && cells[i] == DayCell(d) && Weekdays[i % 7] == DayName(Weekday(d));
  }

  /** The forEach body: create the date's entry if missing, then add the amount to its total and its category. */
  function AddToDay(m: map<Day, DaySummary>, e: Record): (r: map<Day, DaySummary>)
    ensures r.Keys == m.Keys + {e.date}
    ensures forall d :: d in m && d != e.date ==> r[d] == m[d]
    ensures r[e.date].total == (if e.date in m then m[e.date].total else 0.0) + e.amount
    ensures SumValues(r[e.date].categories) ==
              (if e.date in m then SumValues(m[e.date].categories) else 0.0) + e.amount
  {
    var s := if e.date in m then m[e.date] else DaySummary(0.0, []);
    m[e.date := DaySummary(s.total + e.amount, Add(s.categories, e.tag, e.amount))]
  }

  /** The map the forEach loop leaves after the records `rs`. */
  function DayMapOf(rs: seq<Record>): (m: map<Day, DaySummary>)
  {
    if rs == [] then map[] else AddToDay(DayMapOf(rs[..|rs| - 1]), rs[|rs| - 1])
  }

  lemma AccumulateSnoc(rs: seq<Record>, e: Record)
    ensures Accumulate(rs + [e], TagOf) == Add(Accumulate(rs, TagOf), e.tag, e.amount)
  {
    assert (rs + [e])[..|rs|] == rs;
  }

  /** At any one date, the map holds an entry exactly when some record has that date. */
  lemma {:induction false} DayMapDomain(rs: seq<Record>, d: Day)
    ensures d in DayMapOf(rs) <==> OnDay(rs, d) != []
    decreases |rs|
  {
    if rs != [] {
      var init, e := rs[..|rs| - 1], rs[|rs| - 1];
      assert rs == init + [e];
      DayMapDomain(init, d);
      WhereSnoc(init, e, DateOf, d);
    }
  }

  /** The summary the records `rs` of one date leave behind. */
  function SummaryOf(rs: seq<Record>): DaySummary
  {
    DaySummary(Total(rs), Accumulate(rs, TagOf))
  }

  /** Adding a record to its date's summary extends that summary by the record. */
  lemma AddToDaySame(m: map<Day, DaySummary>, before: seq<Record>, e: Record)
    requires e.date in m ==> m[e.date] == SummaryOf(before)
    requires e.date !in m ==> before == []
    ensures AddToDay(m, e)[e.date] == SummaryOf(before + [e])
  {
    TotalSnoc(before, e);
    AccumulateSnoc(before, e);
  }

  /** One more record: the entry of its own date grows by it, every other entry stays. */
  lemma DayMapValueStep(init: seq<Record>, e: Record, d: Day)
    requires d in DayMapOf(init) ==> DayMapOf(init)[d] == SummaryOf(OnDay(init, d))
    requires d !in DayMapOf(init) ==> OnDay(init, d) == []
    requires d in DayMapOf(init + [e])
    ensures DayMapOf(init + [e])[d] == SummaryOf(OnDay(init + [e], d))
  {
    assert (init + [e])[..|init|] == init;
    assert DayMapOf(init + [e]) == AddToDay(DayMapOf(init), e);
    WhereSnoc(init, e, DateOf, d);
    if d == e.date {
      assert OnDay(init + [e], d) == OnDay(init, d) + [e];
      AddToDaySame(DayMapOf(init), OnDay(init, d), e);
    } else {
      assert OnDay(init + [e], d) == OnDay(init, d);
    }
  }

  /**
   * The entry of a date holds the total of that date's records and their
   * per-category subtotals.
   */
  lemma {:induction false} DayMapValue(rs: seq<Record>, d: Day)
    requires d in DayMapOf(rs)
    ensures DayMapOf(rs)[d] == SummaryOf(OnDay(rs, d))
    decreases |rs|
  {
    var init, e := rs[..|rs| - 1], rs[|rs| - 1];
    assert rs == init + [e];
    if d in DayMapOf(init) {
      DayMapValue(init, d);
    } else {
      DayMapDomain(init, d);
    }
    DayMapValueStep(init, e, d);
  }

  /**
   * `dayExpenseMap`, built by the forEach loop, with its keys in insertion
   * order. A date has an entry exactly when some expense has that date; the
   * entry's total is the total of that date's expenses, its categories are
   * their per-category subtotals in first-seen order, and the subtotals add
   * up to the total.
   */
  method BuildDayMap(expenses: seq<Record>) returns (m: map<Day, DaySummary>, keys: seq<Day>)
    ensures NoDup(keys) && forall d :: d in m <==> d in keys
    ensures forall d :: d in m <==> exists e :: e in expenses && e.date == d
    ensures forall d :: d in m ==> m[d].total == Total(OnDay(expenses, d))
    ensures forall d :: d in m ==> m[d].categories == Accumulate(OnDay(expenses, d), TagOf)
    ensures forall d :: d in m ==> SumValues(m[d].categories) == m[d].total
  {
    m := map[];
    keys := [];
    var i := 0;
    while i < |expenses|
      invariant 0 <= i <= |expenses|
      invariant m == DayMapOf(expenses[..i]) && keys == DatesSeen(expenses[..i])
    {
      var e := expenses[i];
      BuildStep(expenses, i);
      if e.date !in m {
        keys := keys + [e.date];
      }
      m := AddToDay(m, e);
      i := i + 1;
    }
    assert expenses[..i] == expenses;
    assert m == DayMapOf(expenses) && keys == DatesSeen(expenses);
    DayMapFacts(expenses);
  }

  /**
   * One turn of the forEach loop: the record at `i` extends the map, and its
   * date joins the key list exactly when the map had no entry for it.
   */
  lemma BuildStep(rs: seq<Record>, i: nat)
    requires i < |rs|
    ensures DayMapOf(rs[..i + 1]) == AddToDay(DayMapOf(rs[..i]), rs[i])
    ensures DatesSeen(rs[..i + 1]) ==
              if rs[i].date in DayMapOf(rs[..i]) then DatesSeen(rs[..i]) else DatesSeen(rs[..i]) + [rs[i].date]
  {
    var pre, e := rs[..i], rs[i];
    assert rs[..i + 1] == pre + [e];
    assert (pre + [e])[..i] == pre;
    DayMapKeys(pre, e.date);
  }

  /** The map has an entry for a date exactly when the key list holds it. */
  lemma DayMapKeys(rs: seq<Record>, d: Day)
    ensures d in DayMapOf(rs) <==> d in DatesSeen(rs)
  {
    DayMapDomain(rs, d);
    DatesSeenHas(rs, d);
  }

  /** What `DayMapOf` and `DatesSeen` hold for every date at once. */
  lemma DayMapFacts(rs: seq<Record>)
    ensures NoDup(DatesSeen(rs)) && forall d :: d in DayMapOf(rs) <==> d in DatesSeen(rs)
    ensures forall d :: d in DayMapOf(rs) <==> exists e :: e in rs && e.date == d
    ensures forall d :: d in DayMapOf(rs) ==> DayMapOf(rs)[d].total == Total(OnDay(rs, d))
    ensures forall d :: d in DayMapOf(rs) ==> DayMapOf(rs)[d].categories == Accumulate(OnDay(rs, d), TagOf)
    ensures forall d :: d in DayMapOf(rs) ==> SumValues(DayMapOf(rs)[d].categories) == DayMapOf(rs)[d].total
  {
    var m := DayMapOf(rs);
    DatesSeenDistinct(rs);
    forall d ensures (d in m <==> d in DatesSeen(rs)) && (d in m <==> exists e :: e in rs && e.date == d) {
      DayMapKeys(rs, d);
      DayMapHas(rs, d);
    }
    forall d | d in m ensures m[d] == SummaryOf(OnDay(rs, d)) && SumValues(m[d].categories) == m[d].total {
      DayMapValue(rs, d);
      AccumulateSum(OnDay(rs, d), TagOf);
    }
  }

  /** A date has an entry exactly when some record carries it. */
  lemma DayMapHas(rs: seq<Record>, d: Day)
    ensures d in DayMapOf(rs) <==> exists e :: e in rs && e.date == d
  {
    DayMapDomain(rs, d);
    if d in DayMapOf(rs) {
      assert OnDay(rs, d)[0] in OnDay(rs, d);
    }
  }

  /** `Object.values(dayExpenseMap).map(d => d.total)`. */
  function DayTotals(m: map<Day, DaySummary>, keys: seq<Day>): (ts: seq<real>)
    requires forall i :: 0 <= i < |keys| ==> keys[i] in m
    ensures |ts| == |keys| && forall i :: 0 <= i < |keys| ==> ts[i] == m[keys[i]].total
  {
    seq(|keys|, i requires 0 <= i < |keys| => m[keys[i]].total)
  }

  /**
   * `Math.max(1, ...totals)`: at least 1, at least every total, and either 1
   * or one of the totals.
   */
  function MaxDayTotal(totals: seq<real>): (mx: real)
    ensures mx >= 1.0
    ensures forall i :: 0 <= i < |totals| ==> totals[i] <= mx
    ensures mx == 1.0 || exists i :: 0 <= i < |totals| && totals[i] == mx
  {
    if totals == [] then 1.0
    else
      var rest := MaxDayTotal(totals[1..]);
      assert forall i :: 1 <= i < |totals| ==> totals[i] == totals[1..][i - 1];
      if totals[0] > rest then totals[0] else rest
  }

  /**
   * `data ? Math.min(data.total / maxDayTotal, 1) : 0`: 0 for a day without
   * expenses, never above 1, not negative for a non-negative total, 1 for a
   * day at least as busy as the maximum and otherwise its share of it.
   */
  function Intensity(data: Option<DaySummary>, maxDayTotal: real): (x: real)
    requires maxDayTotal >= 1.0
    ensures data.None? ==> x == 0.0
    ensures x <= 1.0
    ensures data.Some? && data.value.total >= 0.0 ==> 0.0 <= x
    ensures data.Some? && data.value.total >= maxDayTotal ==> x == 1.0
    ensures data.Some? && data.value.total < maxDayTotal ==> x * maxDayTotal == data.value.total
  {
    match data
    case None => 0.0
    case Some(s) =>
      var ratio := s.total / maxDayTotal;
      if ratio < 1.0 then ratio else 1.0
  }

  /**
   * The maximum is at least 1, so a month whose days total 0 divides by 1;
   * 50 against a busiest day of 100 is 0.5, and 150 against 100 is capped at 1.
   */
  lemma IntensityExamples()
    ensures MaxDayTotal([0.0]) == 1.0 && Intensity(Some(DaySummary(0.0, [])), MaxDayTotal([0.0])) == 0.0
    ensures Intensity(Some(DaySummary(50.0, [])), 100.0) == 0.5
    ensures Intensity(Some(DaySummary(150.0, [])), 100.0) == 1.0
  {
  }

  /** `0.4 + intensity * 0.6`: the dot's opacity, between 0.4 and 1 for an intensity in [0, 1]. */
  function Opacity(intensity: real): (o: real)
    ensures 0.0 <= intensity <= 1.0 ==> 0.4 <= o <= 1.0
    ensures intensity == 0.0 ==> o == 0.4
    ensures intensity == 1.0 ==> o == 1.0
  {
    0.4 + intensity * 0.6
  }

  /**
   * For the map the loop builds and the maximum over its totals, every day
   * with non-negative spending gets an intensity in [0, 1] equal to its share
   * of the busiest day: the cap at 1 never changes a value.
   */
  lemma IntensityIsShare(m: map<Day, DaySummary>, keys: seq<Day>, d: Day)
    requires forall i :: 0 <= i < |keys| ==> keys[i] in m
    requires d in keys && d in m && m[d].total >= 0.0
    ensures 0.0 <= Intensity(Some(m[d]), MaxDayTotal(DayTotals(m, keys))) <= 1.0
    ensures Intensity(Some(m[d]), MaxDayTotal(DayTotals(m, keys))) * MaxDayTotal(DayTotals(m, keys)) == m[d].total
  {
    var ts := DayTotals(m, keys);
    var mx := MaxDayTotal(ts);
    var i :| 0 <= i < |keys| && keys[i] == d;
    assert ts[i] == m[d].total;
  }

  /**
   * `data ? Object.entries(data.categories).sort(...)[0]?.[0] : null`: the
   * category with the largest subtotal, none when there is no entry.
   */
  function TopCategory(data: Option<DaySummary>): (c: Option<string>)
    ensures data.None? ==> c.None?
    ensures data.Some? && data.value.categories != [] ==> c.Some?
    ensures c.Some? ==> c.value in KeysOf(data.value.categories)
  {
    match data
    case None => None
    case Some(s) =>
      var sorted := SortDesc(s.categories);
      if sorted == [] then None
      else
        assert sorted[0] in multiset(s.categories);
        var k :| 0 <= k < |s.categories| && s.categories[k] == sorted[0];
        assert KeysOf(s.categories)[k] == sorted[0].key;
        Some(sorted[0].key)
  }

  /**
   * For a day with expenses, the top category is one whose subtotal for the
   * day is the largest, and every category first seen that day before it
   * has a smaller subtotal.
   */
  lemma TopCategoryIsLargest(expenses: seq<Record>, d: Day)
    requires OnDay(expenses, d) != []
    ensures var day := OnDay(expenses, d);
            var top := TopCategory(Some(SummaryOf(day)));
            && top.Some?
            && (forall e :: e in day ==> Total(WithTag(day, e.tag)) <= Total(WithTag(day, top.value)))
            && exists i :: 0 <= i < |Distinct(KeysFrom(day, TagOf))| && Distinct(KeysFrom(day, TagOf))[i] == top.value
                           && forall j :: 0 <= j < i ==>
                                Total(WithTag(day, Distinct(KeysFrom(day, TagOf))[j])) < Total(WithTag(day, top.value))
  {
    var day := OnDay(expenses, d);
    var top := TopCategory(Some(SummaryOf(day)));
    var h := Ranked(day, TagOf)[0];
    RankedTop(day, TagOf);
    RankedFirstKey(day, TagOf);
    assert top == Some(h.key);
    forall e | e in day ensures Total(WithTag(day, e.tag)) <= Total(WithTag(day, h.key)) {
      assert TagOf(e) == e.tag;
    }
  }
}
