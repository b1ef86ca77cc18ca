/**
 * The budget manager: one progress row per category budget (the "Overall"
 * budget is shown elsewhere), coloured by how much of the budget the month's
 * expenses in that category use, and a small form that saves a budget.
 */
module Budgets {
  import opened Records
  import opened Tally

  /** The colour class of a progress bar. */
  datatype Status = Success | Warning | Destructive

  /** One row of the category-budget list. */
  datatype Row = Row(budget: Budget, spent: real, pct: Option<real>, status: Status)

  /** The insert-or-update request the form sends. */
  datatype BudgetRequest = BudgetRequest(amount: real, category: string, month: Day)

  /**
   * The budgets listed row by row: every budget but the "Overall" ones, each
   * as often as given, in order.
   */
  function CategoryBudgets(budgets: seq<Budget>): (r: seq<Budget>)
    ensures forall b :: b in r <==> b in budgets && b.category != Overall
    ensures forall b :: multiset(r)[b] == if b.category != Overall then multiset(budgets)[b] else 0
    ensures exists idx :: Picks(budgets, r, idx)
    ensures |r| <= |budgets|
  {
    FilterInOrder(budgets, (b: Budget) => b.category != Overall);
    Filter(budgets, (b: Budget) => b.category != Overall)
  }

  /** What was spent in a category: the total of the expenses in it. */
  function Spent(expenses: seq<Record>, category: string): (s: real)
    ensures NonNegative(expenses) ==> 0.0 <= s <= Total(expenses)
  {
    TotalWhereAtMost(expenses, TagOf, category);
    Total(WithTag(expenses, category))
  }

  /**
   * `Math.min(spent / ceiling * 100, 100)`, where `None` stands for a value
   * that is not a number at most 100 (NaN for 0 / 0, minus infinity for a
   * negative amount over 0). A positive amount over a zero ceiling is
   * infinity, which the minimum caps at 100.
   */
  function Pct(spent: real, ceiling: real): (p: Option<real>)
    ensures p.Some? ==> p.value <= 100.0
    ensures p.None? <==> ceiling == 0.0 && spent <= 0.0
    ensures 0.0 <= spent && 0.0 < ceiling ==> p.Some? && 0.0 <= p.value
    ensures 0.0 < ceiling <= spent ==> p == Some(100.0)
    ensures ceiling == 0.0 && 0.0 < spent ==> p == Some(100.0)
    ensures ceiling != 0.0 && p.Some? && p.value < 100.0 ==> p.value * ceiling == spent * 100.0
    ensures 0.0 < ceiling && spent < ceiling ==> p.Some? && p.value < 100.0 && p.value * ceiling == spent * 100.0
  {
    if ceiling == 0.0 then
      (if spent > 0.0 then Some(100.0) else None)
    else
      var ratio := spent / ceiling * 100.0;
      assert ratio * ceiling == spent * 100.0 by {
        assert spent / ceiling * ceiling == spent;
      }
      Some(if ratio < 100.0 then ratio else 100.0)
  }

  /** Destructive from 90 %, warning from 70 %, success below (and for no number). */
  function StatusOf(pct: Option<real>): (s: Status)
    ensures s == Destructive <==> pct.Some? && pct.value >= 90.0
    ensures s == Warning <==> pct.Some? && 70.0 <= pct.value < 90.0
    ensures s == Success <==> pct.None? || pct.value < 70.0
  {
    if pct.Some? && pct.value >= 90.0 then Destructive
    else if pct.Some? && pct.value >= 70.0 then Warning
    else Success
  }

  /**
   * 950 of 1000 is 95 % and destructive, 750 of 1000 is 75 % and a warning,
   * 100 of 1000 is 10 % and success, and 2000 of 1000 is capped at 100 %.
   */
  lemma PctExamples()
    ensures Pct(950.0, 1000.0) == Some(95.0) && StatusOf(Pct(950.0, 1000.0)) == Destructive
    ensures Pct(750.0, 1000.0) == Some(75.0) && StatusOf(Pct(750.0, 1000.0)) == Warning
    ensures Pct(100.0, 1000.0) == Some(10.0) && StatusOf(Pct(100.0, 1000.0)) == Success
    ensures Pct(2000.0, 1000.0) == Some(100.0) && StatusOf(Pct(2000.0, 1000.0)) == Destructive
  {
  }

  function Severity(s: Status): nat
  {
    match s
    case Success => 0
    case Warning => 1
    case Destructive => 2
  }

  /** Against a positive budget, spending more never makes the status less severe. */
  lemma StatusMonotone(spent1: real, spent2: real, ceiling: real)
    requires 0.0 < ceiling && spent1 <= spent2
    ensures Severity(StatusOf(Pct(spent1, ceiling))) <= Severity(StatusOf(Pct(spent2, ceiling)))
  {
    var r1, r2 := spent1 / ceiling * 100.0, spent2 / ceiling * 100.0;
    assert spent1 / ceiling <= spent2 / ceiling by {
      assert spent1 / ceiling * ceiling == spent1 && spent2 / ceiling * ceiling == spent2;
    }
  }

  /** The row list: spending, percentage and status per category budget. */
  function Rows(budgets: seq<Budget>, expenses: seq<Record>): (rows: seq<Row>)
    ensures |rows| == |CategoryBudgets(budgets)|
    ensures forall i :: 0 <= i < |rows| ==>
              && rows[i].budget == CategoryBudgets(budgets)[i]
              && rows[i].budget.category != Overall
              && rows[i].spent == Total(WithTag(expenses, rows[i].budget.category))
              && rows[i].pct == Pct(rows[i].spent, rows[i].budget.amount)
              && rows[i].status == StatusOf(rows[i].pct)
  {
    var cbs := CategoryBudgets(budgets);
    seq(|cbs|, i requires 0 <= i < |cbs| =>
      assert cbs[i] in cbs;
      var spent := Spent(expenses, cbs[i].category);
      var pct := Pct(spent, cbs[i].amount);
      Row(cbs[i], spent, pct, StatusOf(pct)))
  }

  /**
   * The spending a budget row shows for a category is the same sum the
   * per-category breakdowns accumulate for it.
   */
  lemma SpentIsCategoryTotal(expenses: seq<Record>, category: string)
    ensures Spent(expenses, category) == Get(Accumulate(expenses, TagOf), category)
  {
    AccumulateGet(expenses, TagOf, category);
  }

  /** The "Set Budget" form. */
  class SaveForm {
    var open: bool
    var category: string
    var amount: string

    /** Closed, on "Overall", with an empty amount. */
    constructor ()
      ensures !open && category == Overall && amount == ""
    {
      open := false;
      category := Overall;
      amount := "";
    }

    method SetOpen(b: bool)
      modifies this
      ensures open == b && category == old(category) && amount == old(amount)
    {
      open := b;
    }

    method SetCategory(c: string)
      modifies this
      ensures category == c && open == old(open) && amount == old(amount)
    {
      category := c;
    }

    method SetAmount(a: string)
      modifies this
      ensures amount == a && open == old(open) && category == old(category)
    {
      amount := a;
    }

    /**
     * Saving: the typed amount, read by `parseFloat` (`None` for NaN), must
     * be a positive number, or nothing is sent. Otherwise the request carries
     * it with the chosen category and month; a successful save clears the
     * amount, and the category and the open dialog stay as they were.
     */
    method HandleSave(parseFloat: string -> Option<real>, month: Day, upsertSucceeds: bool)
      returns (request: Option<BudgetRequest>)
      modifies this
      ensures request.Some? <==> parseFloat(old(amount)).Some? && parseFloat(old(amount)).value > 0.0
      ensures request.Some? ==> request.value == BudgetRequest(parseFloat(old(amount)).value, old(category), month)
      ensures open == old(open) && category == old(category)
      ensures amount == if request.Some? && upsertSucceeds then "" else old(amount)
    {
      var num := parseFloat(amount);
      if num.None? || num.value == 0.0 || num.value <= 0.0 {
        return None;
      }
      request := Some(BudgetRequest(num.value, category, month));
      if upsertSucceeds {
        amount := "";
      }
    }
  }
}
