/**
 * The month's expense list: expenses grouped by date, the dates newest
 * first, each group with its total, and the edit dialog that is open while
 * an expense is being edited.
 */
module ExpenseList {
  import opened Records
  import opened Tally
  import opened Ranking

  /** One date's block: its date, its expenses in input order, and their total. */
  datatype DayGroup = DayGroup(date: Day, rows: seq<Record>, total: real)

  /** The list shows an empty state, or the date blocks. */
  datatype ListView = EmptyState | Groups(days: seq<DayGroup>)

  predicate StrictlyDescending(ds: seq<Day>)
  {
    forall i, j :: 0 <= i < j < |ds| ==> ds[i] > ds[j]
  }

  /** `(acc[exp.date] ??= []).push(exp)`. */
  function Push(groups: map<Day, seq<Record>>, e: Record): (r: map<Day, seq<Record>>)
    ensures r.Keys == groups.Keys + {e.date}
    ensures r[e.date] == (if e.date in groups then groups[e.date] else []) + [e]
    ensures forall d :: d in groups && d != e.date ==> r[d] == groups[d]
  {
    if e.date in groups then groups[e.date := groups[e.date] + [e]] else groups[e.date := [e]]
  }

  /** The groups the reduce leaves after pushing the records `rs`. */
  function GroupedOf(rs: seq<Record>): (g: map<Day, seq<Record>>)
    ensures forall d :: d in g ==> g[d] != []
  {
    if rs == [] then map[] else Push(GroupedOf(rs[..|rs| - 1]), rs[|rs| - 1])
  }

  /**
   * At any one date, there is a group exactly when some record has that
   * date, and the group holds exactly the records of that date, in order.
   */
  lemma {:induction false} GroupedAt(rs: seq<Record>, d: Day)
    ensures d in GroupedOf(rs) <==> OnDay(rs, d) != []
    ensures d in GroupedOf(rs) ==> GroupedOf(rs)[d] == OnDay(rs, d)
    decreases |rs|
  {
    if rs != [] {
      var init, e := rs[..|rs| - 1], rs[|rs| - 1];
      assert rs == init + [e];
      GroupedAt(init, d);
      WhereSnoc(init, e, DateOf, d);
    }
  }

  /**
   * `grouped` and `Object.keys(grouped)`: every expense pushed onto the
   * array of its date. Every expense lands in the group of its own date,
   * which holds exactly the expenses of that date in input order; the keys
   * list every group once.
   */
  method GroupByDate(expenses: seq<Record>) returns (groups: map<Day, seq<Record>>, keys: seq<Day>)
    ensures NoDup(keys)
    ensures forall d :: d in groups <==> d in keys
    ensures forall d :: d in groups ==> groups[d] == OnDay(expenses, d) && groups[d] != []
    ensures forall e :: e in expenses ==> e.date in groups
  {
    groups := map[];
    keys := [];
    var i := 0;
    while i < |expenses|
      invariant 0 <= i <= |expenses|
      invariant groups == GroupedOf(expenses[..i]) && keys == DatesSeen(expenses[..i])
    {
      var e := expenses[i];
      GroupStep(expenses, i);
      if e.date !in groups {
        keys := keys + [e.date];
      }
      groups := Push(groups, e);
      i := i + 1;
    }
    assert expenses[..i] == expenses;
    GroupedFacts(expenses);
  }

  /** The groups have a key for a date exactly when the key list holds it. */
  lemma GroupedKeys(rs: seq<Record>, d: Day)
    ensures d in GroupedOf(rs) <==> d in DatesSeen(rs)
  {
    GroupedAt(rs, d);
    DatesSeenHas(rs, d);
  }

  /**
   * One turn of the reduce: the record at `i` is pushed onto its date's
   * group, and its date joins the key list exactly when it had no group.
   */
  lemma GroupStep(rs: seq<Record>, i: nat)
    requires i < |rs|
    ensures GroupedOf(rs[..i + 1]) == Push(GroupedOf(rs[..i]), rs[i])
    ensures DatesSeen(rs[..i + 1]) ==
              if rs[i].date in GroupedOf(rs[..i]) then DatesSeen(rs[..i]) else DatesSeen(rs[..i]) + [rs[i].date]
  {
    var pre, e := rs[..i], rs[i];
    assert rs[..i + 1] == pre + [e];
    assert (pre + [e])[..i] == pre;
    GroupedKeys(pre, e.date);
  }

  /** What `GroupedOf` and `DatesSeen` hold for every date at once. */
  lemma GroupedFacts(rs: seq<Record>)
    ensures NoDup(DatesSeen(rs))
    ensures forall d :: d in GroupedOf(rs) <==> d in DatesSeen(rs)
    ensures forall d :: d in GroupedOf(rs) ==> GroupedOf(rs)[d] == OnDay(rs, d) && GroupedOf(rs)[d] != []
    ensures forall e :: e in rs ==> e.date in GroupedOf(rs)
  {
    var g := GroupedOf(rs);
    DatesSeenDistinct(rs);
    forall d ensures (d in g <==> d in DatesSeen(rs)) && (d in g ==> g[d] == OnDay(rs, d)) {
      GroupedKeys(rs, d);
      GroupedAt(rs, d);
    }
    forall e | e in rs ensures e.date in g {
      GroupedAt(rs, e.date);
      assert e in OnDay(rs, e.date);
    }
  }

  /** Insert `d` before the first date that is older than it. */
  function InsertDate(d: Day, ds: seq<Day>): (r: seq<Day>)
    ensures multiset(r) == multiset(ds) + multiset{d}
    ensures |r| == |ds| + 1
    ensures r[0] == d || (ds != [] && r[0] == ds[0])
  {
    if ds == [] || ds[0] <= d then [d] + ds
    else
      assert ds == [ds[0]] + ds[1..];
      [ds[0]] + InsertDate(d, ds[1..])
  }

  /** The first of strictly descending dates is the newest. */
  lemma NewestFirst(ds: seq<Day>)
    requires ds != [] && StrictlyDescending(ds)
    ensures forall x :: x in ds[1..] ==> x < ds[0]
  {
    forall x | x in ds[1..] ensures x < ds[0] {
      var k :| 0 <= k < |ds[1..]| && ds[1..][k] == x;
      assert ds[k + 1] == x;
    }
  }

  /** Putting a date newer than all of `ds` in front keeps them strictly descending. */
  lemma ConsDescending(d: Day, ds: seq<Day>)
    requires StrictlyDescending(ds) && forall x :: x in ds ==> x < d
    ensures StrictlyDescending([d] + ds)
  {
    var r := [d] + ds;
    forall i, j | 0 <= i < j < |r| ensures r[i] > r[j] {
      assert r[j] == ds[j - 1] && ds[j - 1] in ds;
      if i > 0 {
        assert r[i] == ds[i - 1];
      }
    }
  }

  lemma {:induction false} InsertDateSorted(d: Day, ds: seq<Day>)
    requires StrictlyDescending(ds) && d !in ds
    ensures StrictlyDescending(InsertDate(d, ds))
    decreases |ds|
  {
    if ds == [] || ds[0] <= d {
      if ds != [] {
        NewestFirst(ds);
        assert ds == [ds[0]] + ds[1..];
      }
      ConsDescending(d, ds);
    } else {
      var tail := ds[1..];
      var rest := InsertDate(d, tail);
      assert StrictlyDescending(tail) && d !in tail by {
        assert ds == [ds[0]] + tail;
      }
      InsertDateSorted(d, tail);
      NewestFirst(ds);
      forall x | x in rest ensures x < ds[0] {
        assert x in multiset(rest);
      }
      ConsDescending(ds[0], rest);
    }
  }

  /**
   * `Object.keys(grouped).sort((a, b) => b.localeCompare(a))`: ISO date
   * strings compare like the days they name, so this is the dates newest
   * first. Distinct dates come out strictly descending, and nothing is
   * added or lost.
   */
  function SortDatesDesc(ds: seq<Day>): (r: seq<Day>)
    ensures multiset(r) == multiset(ds)
    ensures NoDup(ds) ==> StrictlyDescending(r)
  {
    if ds == [] then []
    else
      assert ds == [ds[0]] + ds[1..];
      var rest := SortDatesDesc(ds[1..]);
      if NoDup(ds) then
        NoDupCons(ds[0], ds[1..]);
        assert ds[0] !in multiset(rest);
        InsertDateSorted(ds[0], rest);
        InsertDate(ds[0], rest)
      else InsertDate(ds[0], rest)
  }

  /** The total of the records of each date in `ds`, added up. */
  function SumOverDays(rs: seq<Record>, ds: seq<Day>): real
  {
    if ds == [] then 0.0 else Total(OnDay(rs, ds[0])) + SumOverDays(rs, ds[1..])
  }

  lemma {:induction false} SumOverDaysSnoc(rs: seq<Record>, x: Record, ds: seq<Day>)
    requires NoDup(ds)
    ensures SumOverDays(rs + [x], ds) == SumOverDays(rs, ds) + (if x.date in ds then x.amount else 0.0)
    decreases |ds|
  {
    if ds != [] {
      var d, tail := ds[0], ds[1..];
      NoDupCons(d, tail);
      assert ds == [d] + tail;
      assert x.date in ds <==> x.date == d || x.date in tail;
      SumOverDaysSnoc(rs, x, tail);
      WhereSnoc(rs, x, DateOf, d);
      var before := Total(OnDay(rs, d));
      var after := Total(OnDay(rs + [x], d));
      if x.date == d {
        TotalSnoc(OnDay(rs, d), x);
        assert after == before + x.amount;
        assert x.date !in tail;
      } else {
        assert OnDay(rs + [x], d) == OnDay(rs, d);
      }
      assert SumOverDays(rs + [x], ds) == after + SumOverDays(rs + [x], tail);
      assert SumOverDays(rs, ds) == before + SumOverDays(rs, tail);
    }
  }

  lemma {:induction false} SumOverDaysEmpty(ds: seq<Day>)
    ensures SumOverDays([], ds) == 0.0
    decreases |ds|
  {
    if ds != [] {
      SumOverDaysEmpty(ds[1..]);
    }
  }

  /**
   * Grouping loses nothing: over any list of distinct dates covering every
   * expense, the day totals add up to the total of all expenses.
   */
  lemma {:induction false} DayTotalsPartition(rs: seq<Record>, ds: seq<Day>)
    requires NoDup(ds)
    requires forall r :: r in rs ==> r.date in ds
    ensures SumOverDays(rs, ds) == Total(rs)
    decreases |rs|
  {
    if rs == [] {
      SumOverDaysEmpty(ds);
    } else {
      var init, last := rs[..|rs| - 1], rs[|rs| - 1];
      assert rs == init + [last];
      DayTotalsPartition(init, ds);
      SumOverDaysSnoc(init, last, ds);
      TotalSnoc(init, last);
    }
  }

  /**
   * What the list renders: the empty state exactly when there are no
   * expenses; otherwise one block per date, dates strictly newest first,
   * each block holding exactly its date's expenses in input order with their
   * total, every expense in the block of its own date, and the block totals
   * adding up to the month's total.
   */
  method Render(expenses: seq<Record>) returns (v: ListView)
    ensures v.EmptyState? <==> expenses == []
    ensures v.Groups? ==> StrictlyDescending(DatesOf(v.days))
    ensures v.Groups? ==> forall g :: g in v.days ==>
              g.rows == OnDay(expenses, g.date) && g.rows != [] && g.total == Total(g.rows)
    ensures v.Groups? ==> forall e :: e in expenses ==> e.date in DatesOf(v.days)
    ensures v.Groups? ==> SumOverDays(expenses, DatesOf(v.days)) == Total(expenses)
  {
    if |expenses| == 0 {
      return EmptyState;
    }
    var groups, keys := GroupByDate(expenses);
    var sortedDates := SortDatesDesc(keys);
    SortedDatesFacts(keys);
    var days := Blocks(groups, sortedDates);
    DayTotalsPartition(expenses, sortedDates);
    v := Groups(days);
  }

  /** Sorting distinct dates keeps exactly those dates, each once. */
  lemma SortedDatesFacts(ds: seq<Day>)
    requires NoDup(ds)
    ensures forall d :: d in SortDatesDesc(ds) <==> d in ds
    ensures NoDup(SortDatesDesc(ds)) && StrictlyDescending(SortDatesDesc(ds))
  {
    var r := SortDatesDesc(ds);
    forall d ensures d in r <==> d in ds {
      assert d in r <==> d in multiset(r);
      assert d in ds <==> d in multiset(ds);
    }
  }

  /** `sortedDates.map(...)`: the block of each date, with its group and the group's total. */
  function Blocks(groups: map<Day, seq<Record>>, dates: seq<Day>): (days: seq<DayGroup>)
    requires forall i :: 0 <= i < |dates| ==> dates[i] in groups
    ensures DatesOf(days) == dates
    ensures forall g :: g in days ==> g.date in groups && g.rows == groups[g.date] && g.total == Total(g.rows)
  {
    seq(|dates|, i requires 0 <= i < |dates| =>
      DayGroup(dates[i], groups[dates[i]], Total(groups[dates[i]])))
  }

  function DatesOf(gs: seq<DayGroup>): (ds: seq<Day>)
    ensures |ds| == |gs| && forall i :: 0 <= i < |gs| ==> ds[i] == gs[i].date
  {
    seq(|gs|, i requires 0 <= i < |gs| => gs[i].date)
  }

  /** The expense whose edit dialog is open, if any. */
  class Editor {
    var editing: Option<Record>

    constructor ()
      ensures editing.None? && !IsOpen()
    {
      editing := None;
    }

    /** `open={!!editingExpense}`. */
    predicate IsOpen()
      reads this
    {
      editing.Some?
    }

    /** The pencil button of an expense. */
    method StartEdit(e: Record)
      modifies this
      ensures editing == Some(e) && IsOpen()
    {
      editing := Some(e);
    }

    /** `onOpenChange`: closing clears the expense; opening changes nothing. */
    method OnOpenChange(open: bool)
      modifies this
      ensures !open ==> editing.None? && !IsOpen()
      ensures open ==> editing == old(editing)
    {
      if !open {
        editing := None;
      }
    }
  }
}
