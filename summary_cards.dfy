/**
 * The four summary cards of a month: total spend with its change against the
 * previous month, spend in the current Monday-start week, the highest
 * spending day, and progress against the "Overall" budget.
 */
module SummaryCards {
  import opened Records
  import opened Tally
  import opened Ranking
  import opened Breakdown
  import Budgets

  /** The arrow shown next to the change. */
  datatype Trend = Up | Down | Flat

  /** The budget card: no "Overall" budget, or its progress bar. */
  datatype BudgetCard = NoBudget | Progress(budget: Budget, pct: Option<real>, status: Budgets.Status)

  /**
   * `prevTotal ? Math.round((total - prevTotal) / prevTotal * 100) : 0`:
   * the change in whole percent, 0 when there is nothing to compare with.
   */
  function ChangePercent(total: real, prevTotal: real): (c: int)
    ensures prevTotal == 0.0 ==> c == 0
    ensures prevTotal != 0.0 ==>
              c as real - 0.5 <= (total - prevTotal) / prevTotal * 100.0 < c as real + 0.5
  {
    if prevTotal == 0.0 then 0 else Round((total - prevTotal) / prevTotal * 100.0)
  }

  /** No previous spending gives 0; 150 after 100 is +50 %, 50 after 100 is -50 %. */
  lemma ChangePercentExamples()
    ensures ChangePercent(100.0, 0.0) == 0
    ensures ChangePercent(150.0, 100.0) == 50
    ensures ChangePercent(50.0, 100.0) == -50
  {
  }

  /** The arrow follows the sign of the change. */
  function TrendOf(c: int): (t: Trend)
    ensures t == Up <==> c > 0
    ensures t == Down <==> c < 0
    ensures t == Flat <==> c == 0
  {
    if c > 0 then Up else if c < 0 then Down else Flat
  }

  /** The figure shown beside the arrow: the change without its sign. */
  function Magnitude(c: int): (m: nat)
    ensures m == c || m == -c
  {
    if c < 0 then -c else c
  }

  /**
   * With a non-negative previous month, an upward arrow means this month's
   * spending is higher and a downward one that it is lower; equal totals
   * show no change.
   */
  lemma TrendMatchesTotals(expenses: seq<Record>, prevExpenses: seq<Record>)
    requires NonNegative(prevExpenses)
    ensures var t := TrendOf(ChangePercent(Total(expenses), Total(prevExpenses)));
            && (t == Up ==> Total(expenses) > Total(prevExpenses))
            && (t == Down ==> Total(expenses) < Total(prevExpenses))
            && (Total(expenses) == Total(prevExpenses) ==> t == Flat)
  {
    var total, prev := Total(expenses), Total(prevExpenses);
    var c := ChangePercent(total, prev);
    if prev != 0.0 {
      var x := (total - prev) / prev * 100.0;
      if c > 0 {
        assert x >= 0.5;
        assert (total - prev) / prev > 0.0;
      } else if c < 0 {
        assert x < -0.5;
        assert (total - prev) / prev < 0.0;
      }
    }
  }

  /**
   * The Monday of the week holding `today` (`startOfWeek` with weeks
   * starting on Monday): the only Monday at most six days before it.
   */
  function WeekStart(today: Day): (ws: Day)
    ensures Weekday(ws) == 1
    ensures ws <= today < ws + 7
  {
    today - (Weekday(today) + 6) % 7
  }

  /** `isWithinInterval` of a date in the week from Monday `ws` through Sunday. */
  predicate InWeek(e: Record, ws: Day)
  {
    ws <= e.date <= ws + 6
  }

  /**
   * An expense falls in this week's interval exactly when its own
   * Monday-start week is the week holding `today`.
   */
  lemma InWeekIsSameWeek(e: Record, today: Day)
    ensures InWeek(e, WeekStart(today)) <==> WeekStart(e.date) == WeekStart(today)
  {
    var ws := WeekStart(today);
    if InWeek(e, ws) {
      var k := e.date - ws;
      assert (ws + 4) % 7 == 1;
      assert Weekday(e.date) == (1 + k) % 7 by {
        assert e.date + 4 == (ws + 4) + k;
      }
      assert (Weekday(e.date) + 6) % 7 == k;
    }
  }

  /** The spending dated within the Monday-start week holding `today`. */
  function WeeklySpend(expenses: seq<Record>, today: Day): (s: real)
    ensures NonNegative(expenses) ==> 0.0 <= s <= Total(expenses)
  {
    var ws := WeekStart(today);
    var inWeek := Filter(expenses, e => InWeek(e, ws));
    if NonNegative(expenses) then
      TotalFilterAtMost(expenses, e => InWeek(e, ws));
      Total(inWeek)
    else Total(inWeek)
  }

  /**
   * The week's spending and the rest of the month's add up to the month's
   * total: every expense is counted in exactly one of the two.
   */
  lemma WeekSplitsMonth(expenses: seq<Record>, today: Day)
    ensures WeeklySpend(expenses, today)
            + Total(Filter(expenses, e => !InWeek(e, WeekStart(today)))) == Total(expenses)
  {
    var ws := WeekStart(today);
    TotalPartition(expenses, e => InWeek(e, ws), e => !InWeek(e, ws));
  }

  /**
   * `highestDay`: the first entry of the per-date totals sorted largest
   * first. It is absent exactly when there are no expenses; otherwise its
   * total is that of its date, no date has a larger total, and every date
   * first seen before it has a smaller one.
   */
  method HighestDay(expenses: seq<Record>) returns (h: Option<Entry<Day>>)
    ensures h.None? <==> expenses == []
    ensures h.Some? ==> h.value.value == Total(OnDay(expenses, h.value.key))
    ensures h.Some? ==> forall e :: e in expenses ==> Total(OnDay(expenses, e.date)) <= h.value.value
    ensures h.Some? ==> exists i :: 0 <= i < |Distinct(KeysFrom(expenses, DateOf))|
                                    && Distinct(KeysFrom(expenses, DateOf))[i] == h.value.key
                                    && forall j :: 0 <= j < i ==>
                                         Total(OnDay(expenses, Distinct(KeysFrom(expenses, DateOf))[j])) < h.value.value
  {
    var dayTotals := SumBy(expenses, DateOf);
    var sorted := SortDesc(dayTotals);
    if sorted == [] {
      h := None;
    } else {
      h := Some(sorted[0]);
      RankedTop(expenses, DateOf);
      RankedFirstKey(expenses, DateOf);
      forall e | e in expenses ensures Total(OnDay(expenses, e.date)) <= h.value.value {
        assert DateOf(e) == e.date;
      }
    }
  }

  /** `budgets.find(b => b.category === "Overall")`. */
  function OverallBudget(budgets: seq<Budget>): (b: Option<Budget>)
    ensures b.None? <==> forall i :: 0 <= i < |budgets| ==> budgets[i].category != Overall
    ensures b.Some? ==> exists i :: 0 <= i < |budgets| && budgets[i] == b.value && b.value.category == Overall
                                    && forall j :: 0 <= j < i ==> budgets[j].category != Overall
  {
    if budgets == [] then None
    else if budgets[0].category == Overall then Some(budgets[0])
    else
      var rest := OverallBudget(budgets[1..]);
      assert forall i :: 1 <= i < |budgets| ==> budgets[i] == budgets[1..][i - 1];
      if rest.Some? then
        assert exists i :: 0 <= i < |budgets| && budgets[i] == rest.value && rest.value.category == Overall
                           && forall j :: 0 <= j < i ==> budgets[j].category != Overall by {
          var k :| 0 <= k < |budgets[1..]| && budgets[1..][k] == rest.value && rest.value.category == Overall
                   && forall j :: 0 <= j < k ==> budgets[1..][j].category != Overall;
          assert budgets[k + 1] == rest.value;
          forall j | 0 <= j < k + 1 ensures budgets[j].category != Overall {
            if j > 0 { assert budgets[j] == budgets[1..][j - 1]; }
          }
        }
        rest
      else rest
  }

  /**
   * `budgetProgress` and `budgetStatus`: no card without an "Overall"
   * budget; otherwise the month's total against the first such budget,
   * capped at 100, classified with the same thresholds as the category
   * budgets.
   */
  function BudgetProgress(totalSpend: real, budgets: seq<Budget>): (card: BudgetCard)
    ensures card.NoBudget? <==> OverallBudget(budgets).None?
    ensures card.Progress? ==> card.budget == OverallBudget(budgets).value
    ensures card.Progress? ==> card.pct == Budgets.Pct(totalSpend, card.budget.amount)
    ensures card.Progress? && card.pct.Some? ==> card.pct.value <= 100.0
    ensures card.Progress? && 0.0 <= totalSpend && 0.0 < card.budget.amount ==>
              card.pct.Some? && 0.0 <= card.pct.value
    ensures card.Progress? ==> card.status == Budgets.StatusOf(card.pct)
  {
    match OverallBudget(budgets)
    case None => NoBudget
    case Some(b) =>
      var pct := Budgets.Pct(totalSpend, b.amount);
      Progress(b, pct, Budgets.StatusOf(pct))
  }
}
