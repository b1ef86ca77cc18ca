/**
 * The records every expense view works on, and the list operations the views
 * apply to them: `filter`, the `reduce((s, e) => s + e.amount, 0)` total, and
 * the colour-table lookup with its "Other" fallback.
 *
 * A calendar date is a day number: days since 1970-01-01. ISO `YYYY-MM-DD`
 * strings compare lexically in the same order as these numbers, so the
 * ordering the views get from comparing date strings is integer order here.
 */
module Records {

  /** Days since 1970-01-01 (a Thursday). */
  type Day = int

  datatype Option<T> = None | Some(value: T)

  /**
   * An expense or an income entry. For an expense `tag` is its category,
   * for an income its source; `amount` is exact (no floating point).
   */
  datatype Record = Record(id: string, amount: real, date: Day, tag: string, note: Option<string>)

  /** A budget: a category, or the sentinel "Overall", and its ceiling. */
  datatype Budget = Budget(id: string, category: string, amount: real)

  const Overall: string := "Overall"

  function DateOf(r: Record): Day { r.date }

  function TagOf(r: Record): string { r.tag }

  /** The weekday of a day as `getDay` numbers it: Sunday 0, Monday 1, ... Saturday 6. */
  function Weekday(d: Day): (w: int)
    ensures 0 <= w < 7
  {
    (d + 4) % 7
  }

  /**
   * 1970-01-01 was a Thursday, the weekday moves on by one each day and
   * comes back every seven days.
   */
  lemma WeekdayFacts(d: Day)
    ensures Weekday(0) == 4
    ensures Weekday(d + 1) == (Weekday(d) + 1) % 7
    ensures Weekday(d + 7) == Weekday(d)
  {
  }

  /** `Math.round`: the nearest integer, halves rounded up. */
  function Round(x: real): (n: int)
    ensures n as real - 0.5 <= x < n as real + 0.5
  {
    (x + 0.5).Floor
  }

  /**
   * `Array.prototype.filter`: the elements satisfying `p`, each as often as
   * in `s`, in input order (see `FilterInOrder`).
   */
  function Filter<T(!new)>(s: seq<T>, p: T -> bool): (r: seq<T>)
    ensures |r| <= |s|
    ensures forall x :: x in r <==> x in s && p(x)
    ensures forall x :: multiset(r)[x] == if p(x) then multiset(s)[x] else 0
  {
    if s == [] then []
    else
      var init, last := s[..|s| - 1], s[|s| - 1];
      assert s == init + [last];
      Filter(init, p) + (if p(last) then [last] else [])
  }

  /**
   * `r` is a subsequence of `s`: `idx` gives, for each element of `r`, the
   * position in `s` it comes from, and the positions increase.
   */
  ghost predicate Picks<T>(s: seq<T>, r: seq<T>, idx: seq<int>)
  {
    && |idx| == |r|
    && (forall k :: 0 <= k < |idx| ==> 0 <= idx[k] < |s| && s[idx[k]] == r[k])
    && (forall k, l :: 0 <= k < l < |idx| ==> idx[k] < idx[l])
  }

  /**
   * A subsequence of all but the last element of `s` is one of `s`, and stays
   * one when that last element is appended to it.
   */
  lemma PicksLast<T>(s: seq<T>, r: seq<T>, idx: seq<int>)
    requires s != [] && Picks(s[..|s| - 1], r, idx)
    ensures Picks(s, r, idx)
    ensures Picks(s, r + [s[|s| - 1]], idx + [|s| - 1])
  {
    var r', idx' := r + [s[|s| - 1]], idx + [|s| - 1];
    forall k | 0 <= k < |idx| ensures 0 <= idx[k] < |s| && s[idx[k]] == r[k] {
      assert s[..|s| - 1][idx[k]] == r[k];
    }
    forall k | 0 <= k < |idx'| ensures 0 <= idx'[k] < |s| && s[idx'[k]] == r'[k] {
      if k < |idx| {
        assert idx'[k] == idx[k] && r'[k] == r[k];
      }
    }
    forall k, l | 0 <= k < l < |idx'| ensures idx'[k] < idx'[l] {
      if l < |idx| {
        assert idx'[k] == idx[k] && idx'[l] == idx[l];
      }
    }
  }

  /** What `filter` keeps comes in the order it had in the input. */
  lemma {:induction false} FilterInOrder<T(!new)>(s: seq<T>, p: T -> bool)
    ensures exists idx :: Picks(s, Filter(s, p), idx)
    decreases |s|
  {
    if s == [] {
      assert Picks(s, Filter(s, p), []);
    } else {
      var init, last := s[..|s| - 1], s[|s| - 1];
      FilterInOrder(init, p);
      var f := Filter(init, p);
      var idx :| Picks(init, f, idx);
      PicksLast(s, f, idx);
      if p(last) {
        assert Filter(s, p) == f + [last];
        assert Picks(s, Filter(s, p), idx + [|s| - 1]);
      } else {
        assert Filter(s, p) == f;
        assert Picks(s, Filter(s, p), idx);
      }
    }
  }

  /** The records whose key (date, label, ...) is `k`, in input order. */
  function Where<K(==)>(rs: seq<Record>, key: Record -> K, k: K): (r: seq<Record>)
    ensures forall x :: multiset(r)[x] == if key(x) == k then multiset(rs)[x] else 0
  {
    Filter(rs, r => key(r) == k)
  }

  /** `Where` keeps the input order: its result is a subsequence of the input. */
  lemma WhereInOrder<K(!new)>(rs: seq<Record>, key: Record -> K, k: K)
    ensures exists idx :: Picks(rs, Where(rs, key, k), idx)
  {
    FilterInOrder(rs, r => key(r) == k);
    var idx :| Picks(rs, Filter(rs, r => key(r) == k), idx);
    assert Picks(rs, Where(rs, key, k), idx);
  }

  /** The records dated `d`, in input order. */
  function OnDay(rs: seq<Record>, d: Day): (r: seq<Record>)
    ensures forall x :: x in r <==> x in rs && x.date == d
    ensures forall x :: multiset(r)[x] == if x.date == d then multiset(rs)[x] else 0
  {
    Where(rs, DateOf, d)
  }

  /** The records of a day come in the order they were given. */
  lemma OnDayInOrder(rs: seq<Record>, d: Day)
    ensures exists idx :: Picks(rs, OnDay(rs, d), idx)
  {
    WhereInOrder(rs, DateOf, d);
    var idx :| Picks(rs, Where(rs, DateOf, d), idx);
    assert Picks(rs, OnDay(rs, d), idx);
  }

  /** The records tagged `l`, in input order. */
  function WithTag(rs: seq<Record>, l: string): (r: seq<Record>)
    ensures forall x :: x in r <==> x in rs && x.tag == l
    ensures forall x :: multiset(r)[x] == if x.tag == l then multiset(rs)[x] else 0
  {
    Where(rs, TagOf, l)
  }

  /** The records with a label come in the order they were given. */
  lemma WithTagInOrder(rs: seq<Record>, l: string)
    ensures exists idx :: Picks(rs, WithTag(rs, l), idx)
  {
    WhereInOrder(rs, TagOf, l);
    var idx :| Picks(rs, Where(rs, TagOf, l), idx);
    assert Picks(rs, WithTag(rs, l), idx);
  }

  /** `rs.reduce((s, e) => s + e.amount, 0)`. */
  function Total(rs: seq<Record>): (t: real)
    ensures (forall i :: 0 <= i < |rs| ==> rs[i].amount >= 0.0) ==> t >= 0.0
  {
    if rs == [] then 0.0 else Total(rs[..|rs| - 1]) + rs[|rs| - 1].amount
  }

  predicate NonNegative(rs: seq<Record>)
  {
    forall i :: 0 <= i < |rs| ==> rs[i].amount >= 0.0
  }

  lemma TotalSnoc(rs: seq<Record>, r: Record)
    ensures Total(rs + [r]) == Total(rs) + r.amount
  {
    assert (rs + [r])[..|rs|] == rs;
  }

  lemma FilterSnoc<T(!new)>(s: seq<T>, x: T, p: T -> bool)
    ensures Filter(s + [x], p) == Filter(s, p) + (if p(x) then [x] else [])
  {
    assert (s + [x])[..|s|] == s;
  }

  lemma WhereSnoc<K(!new)>(rs: seq<Record>, x: Record, key: Record -> K, k: K)
    ensures Where(rs + [x], key, k) == Where(rs, key, k) + (if key(x) == k then [x] else [])
  {
    assert (rs + [x])[..|rs|] == rs;
  }

  /** Filtering a concatenation filters each part, keeping the parts in order. */
  lemma {:induction false} FilterConcat<T(!new)>(a: seq<T>, b: seq<T>, p: T -> bool)
    ensures Filter(a + b, p) == Filter(a, p) + Filter(b, p)
    decreases |b|
  {
    if b == [] {
      assert a + b == a;
    } else {
      var b', x := b[..|b| - 1], b[|b| - 1];
      assert b == b' + [x];
      assert a + b == (a + b') + [x];
      var tail := if p(x) then [x] else [];
      calc {
        Filter(a + b, p);
        { FilterSnoc(a + b', x, p); }
        Filter(a + b', p) + tail;
        { FilterConcat(a, b', p); }
        (Filter(a, p) + Filter(b', p)) + tail;
        Filter(a, p) + (Filter(b', p) + tail);
        { FilterSnoc(b', x, p); }
        Filter(a, p) + Filter(b, p);
      }
    }
  }

  /** The total of a concatenation is the sum of the parts' totals. */
  lemma {:induction false} TotalConcat(a: seq<Record>, b: seq<Record>)
    ensures Total(a + b) == Total(a) + Total(b)
    decreases |b|
  {
    if b == [] {
      assert a + b == a;
    } else {
      var b', x := b[..|b| - 1], b[|b| - 1];
      assert b == b' + [x];
      assert a + b == (a + b') + [x];
      TotalSnoc(a + b', x);
      TotalConcat(a, b');
      TotalSnoc(b', x);
    }
  }

  /**
   * A list splits into the records a predicate selects and the ones its
   * complement selects, and the two totals add up to the whole.
   */
  lemma {:induction false} TotalPartition(rs: seq<Record>, p: Record -> bool, q: Record -> bool)
    requires forall x :: q(x) == !p(x)
    ensures Total(Filter(rs, p)) + Total(Filter(rs, q)) == Total(rs)
    decreases |rs|
  {
    if rs != [] {
      var init, last := rs[..|rs| - 1], rs[|rs| - 1];
      assert rs == init + [last];
      TotalPartition(init, p, q);
      FilterSnoc(init, last, p);
      FilterSnoc(init, last, q);
      assert Total(rs) == Total(init) + last.amount;
      if p(last) {
        TotalSnoc(Filter(init, p), last);
        assert Filter(rs, q) == Filter(init, q);
      } else {
        TotalSnoc(Filter(init, q), last);
        assert Filter(rs, p) == Filter(init, p);
      }
    }
  }

  /** With no negative amounts, a filtered total never exceeds the whole. */
  lemma {:induction false} TotalFilterAtMost(rs: seq<Record>, p: Record -> bool)
    requires NonNegative(rs)
    ensures 0.0 <= Total(Filter(rs, p)) <= Total(rs)
    decreases |rs|
  {
    if rs != [] {
      var init, last := rs[..|rs| - 1], rs[|rs| - 1];
      assert rs == init + [last];
      assert NonNegative(init);
      TotalFilterAtMost(init, p);
      FilterSnoc(init, last, p);
      assert Total(rs) == Total(init) + last.amount;
      assert last.amount >= 0.0;
      if p(last) {
        TotalSnoc(Filter(init, p), last);
        assert Total(Filter(rs, p)) == Total(Filter(init, p)) + last.amount;
      } else {
        assert Filter(rs, p) == Filter(init, p);
      }
    }
  }

  /** With no negative amounts, the records with one key total at most the whole. */
  lemma TotalWhereAtMost<K(!new)>(rs: seq<Record>, key: Record -> K, k: K)
    ensures NonNegative(rs) ==> 0.0 <= Total(Where(rs, key, k)) <= Total(rs)
  {
    if NonNegative(rs) {
      TotalFilterAtMost(rs, r => key(r) == k);
    }
  }

  /**
   * `TABLE[name] || TABLE.Other`: the colour of a category or source name, falling back to the
   * "Other" entry when the name is missing or mapped to an empty string.
   */
  function ColorOf(table: map<string, string>, name: string): (c: Option<string>)
    ensures name in table && table[name] != "" ==> c == Some(table[name])
    ensures (name !in table || table[name] == "") && "Other" in table ==> c == Some(table["Other"])
    ensures c.None? <==> (name !in table || table[name] == "") && "Other" !in table
  {
    if name in table && table[name] != "" then Some(table[name])
    else if "Other" in table then Some(table["Other"])
    else None
  }
}
