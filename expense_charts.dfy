/**
 * The two charts of a month: a pie of spending per category with each
 * category's rounded share of the month, and a bar per day from the first of
 * the month up to today (or to the month's end for a past month).
 */
module Charts {
  import opened Records
  import opened Tally
  import opened Ranking
  import opened Breakdown

  /** One bar: the day of the month and what was spent on it. */
  datatype Bar = Bar(day: nat, amount: real)

  /**
   * `categoryData`: the category totals accumulated by the forEach loop,
   * sorted largest first. One entry per distinct category, each the total
   * of that category; the entries add up to the month's total, equal totals
   * keep first-seen order, and there is no entry (the "No data yet" branch)
   * exactly when there are no expenses.
   */
  method CategoryData(expenses: seq<Record>) returns (data: seq<Entry<string>>)
    ensures data == Ranked(expenses, TagOf)
    ensures NoDup(KeysOf(data))
    ensures forall c :: c in KeysOf(data) <==> exists e :: e in expenses && e.tag == c
    ensures forall i :: 0 <= i < |data| ==> data[i].value == Total(WithTag(expenses, data[i].key))
    ensures SumValues(data) == Total(expenses)
    ensures NonIncreasing(data)
    ensures forall v :: WithValue(data, v) == WithValue(Accumulate(expenses, TagOf), v)
    ensures data == [] <==> expenses == []
  {
    var totals := SumBy(expenses, TagOf);
    data := SortDesc(totals);
    RankedFacts(expenses, TagOf);
    forall c ensures c in KeysOf(data) <==> exists e :: e in expenses && e.tag == c {
      KeysFromHas(expenses, TagOf, c);
    }
  }

  /**
   * `dailyData`: the per-date totals accumulated by the forEach loop, read
   * back for every day from `monthStart` through the month's last day or
   * today, whichever comes first; a day without expenses gets 0. The month
   * must have started (the interval enumeration needs start <= end).
   */
  method DailyData(expenses: seq<Record>, monthStart: Day, monthEnd: Day, today: Day)
    returns (bars: seq<Bar>)
    requires monthStart <= monthEnd && monthStart <= today
    ensures |bars| == (if monthEnd < today then monthEnd else today) - monthStart + 1
    ensures forall i :: 0 <= i < |bars| ==> bars[i].day == i + 1
    ensures forall i :: 0 <= i < |bars| ==> bars[i].amount == Total(OnDay(expenses, monthStart + i))
    ensures forall i :: 0 <= i < |bars| && OnDay(expenses, monthStart + i) == [] ==> bars[i].amount == 0.0
  {
    var dayTotals := SumBy(expenses, DateOf);
    var end := if monthEnd < today then monthEnd else today;
    bars := Series(dayTotals, monthStart, end - monthStart + 1);
  }

  /** `days.map(...)`: the bars of `n` consecutive days read from the per-date totals. */
  function Series(dayTotals: seq<Entry<Day>>, start: Day, n: nat): (bars: seq<Bar>)
    ensures |bars| == n
    ensures forall i :: 0 <= i < n ==> bars[i] == Bar(i + 1, Get(dayTotals, start + i))
  {
    seq(n, i requires 0 <= i < n => Bar(i + 1, Get(dayTotals, start + i)))
  }

  /** `total ? Math.round(value / total * 100) : 0`: a category's share in whole percent. */
  function Share(value: real, total: real): (pct: int)
    ensures total == 0.0 ==> pct == 0
    ensures total != 0.0 ==> pct as real - 0.5 <= value / total * 100.0 < pct as real + 0.5
    ensures 0.0 <= value <= total && total != 0.0 ==> 0 <= pct <= 100
  {
    assert 0.0 <= value <= total && total != 0.0 ==> 0.0 <= value / total * 100.0 <= 100.0 by {
      if 0.0 <= value <= total && total != 0.0 {
        var q := value / total;
        assert q * total == value;
        assert 0.0 <= q <= 1.0;
      }
    }
    if total == 0.0 then 0 else Round(value / total * 100.0)
  }

  /**
   * With no negative amounts, every slice of the pie shows a share between
   * 0 and 100 percent of the month's total.
   */
  lemma ShareInRange(expenses: seq<Record>, c: string)
    requires NonNegative(expenses)
    ensures 0 <= Share(Total(WithTag(expenses, c)), Total(expenses)) <= 100
  {
    TotalWhereAtMost(expenses, TagOf, c);
  }
}
