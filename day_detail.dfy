/**
 * The detail view of one calendar day: a tab for the day's expenses and one
 * for its incomes, each showing the day's total, the per-category (or
 * per-source) chips sorted largest first, and the day's entries.
 */
module DayDetail {
  import opened Records
  import opened Tally
  import opened Ranking
  import opened Breakdown

  datatype Tab = ExpensesTab | IncomeTab

  /** What one tab shows: its total, its chips and its rows. */
  datatype Panel = Panel(total: real, chips: seq<Entry<string>>, rows: seq<Record>)

  /**
   * The panel of a tab for `date`: the entries of that day, their total, and
   * the chips: one per distinct category (source), holding that category's
   * total for the day, largest first. The chips add up to the day's total,
   * and there are chips exactly when there are entries.
   */
  function DayPanel(rs: seq<Record>, date: Day): (p: Panel)
    ensures p.rows == OnDay(rs, date)
    ensures forall r :: r in p.rows <==> r in rs && r.date == date
    ensures p.total == Total(p.rows)
    ensures NoDup(KeysOf(p.chips))
    ensures forall t :: t in KeysOf(p.chips) <==> exists r :: r in p.rows && r.tag == t
    ensures forall i :: 0 <= i < |p.chips| ==> p.chips[i].value == Total(WithTag(p.rows, p.chips[i].key))
    ensures SumValues(p.chips) == p.total
    ensures NonIncreasing(p.chips)
    ensures forall v :: WithValue(p.chips, v) == WithValue(Accumulate(p.rows, TagOf), v)
    ensures p.chips == [] <==> p.rows == []
  {
    var rows := OnDay(rs, date);
    RankedFacts(rows, TagOf);
    var chips := Ranked(rows, TagOf);
    forall t ensures t in KeysOf(chips) <==> exists r :: r in rows && r.tag == t {
      KeysFromHas(rows, TagOf, t);
    }
    Panel(Total(rows), chips, rows)
  }

  /** The noun after the day's entry count: singular exactly for one entry. */
  function TransactionNoun(n: nat): (w: string)
    ensures 11 <= |w| <= 12 && w[..11] == "transaction"
    ensures |w| == 11 <==> n == 1
    ensures |w| == 12 ==> w[11] == 's'
  {
    "transaction" + (if n != 1 then "s" else "")
  }

  /** The number of entries shown in the header: both tabs together. */
  function TransactionCount(expenses: seq<Record>, incomes: seq<Record>, date: Day): (n: nat)
    ensures n == |DayPanel(expenses, date).rows| + |DayPanel(incomes, date).rows|
    ensures n == 0 <==> DayPanel(expenses, date).chips == [] && DayPanel(incomes, date).chips == []
  {
    |OnDay(expenses, date)| + |OnDay(incomes, date)|
  }

  class View {
    const date: Day
    const expenses: seq<Record>
    const incomes: seq<Record>
    var activeTab: Tab

    /** The view opens on the expenses tab. */
    constructor (date: Day, expenses: seq<Record>, incomes: seq<Record>)
      ensures this.date == date && this.expenses == expenses && this.incomes == incomes
      ensures activeTab == ExpensesTab
    {
      this.date := date;
      this.expenses := expenses;
      this.incomes := incomes;
      activeTab := ExpensesTab;
    }

    /** A click on a tab button. */
    method SelectTab(t: Tab)
      modifies this
      ensures activeTab == t
    {
      activeTab := t;
    }

    /** The panel of the active tab. */
    function Shown(): (p: Panel)
      reads this
      ensures activeTab == ExpensesTab ==> p == DayPanel(expenses, date)
      ensures activeTab == IncomeTab ==> p == DayPanel(incomes, date)
    {
      match activeTab
      case ExpensesTab => DayPanel(expenses, date)
      case IncomeTab => DayPanel(incomes, date)
    }
  }
}
