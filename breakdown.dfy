/**
 * A breakdown: the per-key sums of a list of records, as the views build them
 * into a dictionary, listed by `Object.entries(...).sort((a, b) => b[1] - a[1])`.
 * Category chips, income-source chips, the category pie and the "highest
 * day" card are all breakdowns.
 */
module Breakdown {
  import opened Records
  import opened Tally
  import opened Ranking

  function Ranked<K(==,!new)>(rs: seq<Record>, key: Record -> K): (r: seq<Entry<K>>)
    ensures multiset(r) == multiset(Accumulate(rs, key))
    ensures NonIncreasing(r)
  {
    SortDesc(Accumulate(rs, key))
  }

  lemma {:induction false} SumValuesInsert<K(!new)>(e: Entry<K>, t: seq<Entry<K>>)
    ensures SumValues(Insert(e, t)) == e.value + SumValues(t)
    decreases |t|
  {
    if t != [] && t[0].value > e.value {
      SumValuesInsert(e, t[1..]);
      assert Insert(e, t)[1..] == Insert(e, t[1..]);
    } else {
      assert ([e] + t)[1..] == t;
    }
  }

  lemma {:induction false} SumValuesSort<K(!new)>(s: seq<Entry<K>>)
    ensures SumValues(SortDesc(s)) == SumValues(s)
    decreases |s|
  {
    if s != [] {
      SumValuesSort(s[1..]);
      SumValuesInsert(s[0], SortDesc(s[1..]));
    }
  }

  /**
   * A breakdown has one entry per distinct key of the records, each holding
   * the total of the records with that key; the entries add up to the total
   * of all records; they are ordered largest first, and entries with equal
   * sums keep the order in which their keys were first seen.
   */
  lemma RankedFacts<K(!new)>(rs: seq<Record>, key: Record -> K)
    ensures NoDup(KeysOf(Ranked(rs, key)))
    ensures forall k :: k in KeysOf(Ranked(rs, key)) <==> k in KeysFrom(rs, key)
    ensures forall i :: 0 <= i < |Ranked(rs, key)| ==>
              Ranked(rs, key)[i].value == Total(Where(rs, key, Ranked(rs, key)[i].key))
    ensures SumValues(Ranked(rs, key)) == Total(rs)
    ensures NonIncreasing(Ranked(rs, key))
    ensures forall v :: WithValue(Ranked(rs, key), v) == WithValue(Accumulate(rs, key), v)
    ensures Ranked(rs, key) == [] <==> rs == []
  {
    var d := Accumulate(rs, key);
    var r := SortDesc(d);
    AccumulateKeys(rs, key);
    SortDescKeys(d);
    forall i | 0 <= i < |r| ensures r[i].value == Total(Where(rs, key, r[i].key)) {
      assert r[i] in multiset(d);
      var j :| 0 <= j < |d| && d[j] == r[i];
      GetAt(d, j);
      AccumulateGet(rs, key, r[i].key);
    }
    AccumulateSum(rs, key);
    SumValuesSort(d);
    forall v ensures WithValue(r, v) == WithValue(d, v) {
      SortDescStable(d, v);
    }
    AccumulateEmpty(rs, key);
  }

  /**
   * Sums per label, then largest first with ties in first-seen order:
   * A 30, B 50, A 20 gives A 50 before B 50.
   */
  lemma RankedExample()
    ensures var a1, b, a2 := Record("1", 30.0, 0, "A", None), Record("2", 50.0, 0, "B", None), Record("3", 20.0, 0, "A", None);
            Ranked([a1, b, a2], TagOf) == [Entry("A", 50.0), Entry("B", 50.0)]
  {
    var a1, b, a2 := Record("1", 30.0, 0, "A", None), Record("2", 50.0, 0, "B", None), Record("3", 20.0, 0, "A", None);
    assert [a1, b, a2][..2] == [a1, b];
    assert [a1, b][..1] == [a1];
    assert [a1][..0] == [];
    assert Accumulate([a1], TagOf) == [Entry("A", 30.0)];
    assert Accumulate([a1, b], TagOf) == [Entry("A", 30.0), Entry("B", 50.0)];
    var d := [Entry("A", 30.0), Entry("B", 50.0)];
    assert Add(d, "A", 20.0) == [Entry("A", 50.0)] + d[1..];
    assert Accumulate([a1, b, a2], TagOf) == [Entry("A", 50.0), Entry("B", 50.0)];
    var s := [Entry("A", 50.0), Entry("B", 50.0)];
    assert s[1..] == [Entry("B", 50.0)];
    assert SortDesc(s[1..]) == [Entry("B", 50.0)];
  }

  /**
   * `Ranked(...)[0]` is a key with the largest total; of the keys sharing
   * that total it is the one seen first.
   */
  lemma RankedFirst<K(!new)>(rs: seq<Record>, key: Record -> K)
    requires rs != []
    ensures Ranked(rs, key) != []
    ensures forall x :: x in Accumulate(rs, key) ==> x.value <= Ranked(rs, key)[0].value
    ensures exists i :: 0 <= i < |Accumulate(rs, key)| && Accumulate(rs, key)[i] == Ranked(rs, key)[0]
                        && forall j :: 0 <= j < i ==> Accumulate(rs, key)[j].value < Accumulate(rs, key)[i].value
  {
    AccumulateEmpty(rs, key);
    SortDescFirst(Accumulate(rs, key));
  }

  /** The entry of the dictionary at index `m` holds the total of its key's records. */
  lemma AccumulateAt<K(!new)>(rs: seq<Record>, key: Record -> K, m: nat)
    requires m < |Accumulate(rs, key)|
    ensures Accumulate(rs, key)[m].value == Total(Where(rs, key, Accumulate(rs, key)[m].key))
  {
    AccumulateKeys(rs, key);
    GetAt(Accumulate(rs, key), m);
    AccumulateGet(rs, key, Accumulate(rs, key)[m].key);
  }

  /** The dictionary's entries follow the distinct keys of the records. */
  lemma DistinctKeyAt<K(!new)>(rs: seq<Record>, key: Record -> K, m: nat)
    requires m < |Accumulate(rs, key)|
    ensures |Distinct(KeysFrom(rs, key))| == |Accumulate(rs, key)|
    ensures Distinct(KeysFrom(rs, key))[m] == Accumulate(rs, key)[m].key
  {
    AccumulateKeys(rs, key);
  }

  /**
   * `Ranked(...)[0]` in terms of the records alone: its value is its key's
   * total, and no record's key has a larger total.
   */
  lemma RankedTop<K(!new)>(rs: seq<Record>, key: Record -> K)
    requires rs != []
    ensures Ranked(rs, key) != []
    ensures Ranked(rs, key)[0].value == Total(Where(rs, key, Ranked(rs, key)[0].key))
    ensures forall x :: x in rs ==> Total(Where(rs, key, key(x))) <= Ranked(rs, key)[0].value
  {
    var d := Accumulate(rs, key);
    RankedFirst(rs, key);
    AccumulateKeys(rs, key);
    var h := Ranked(rs, key)[0];
    var i :| 0 <= i < |d| && d[i] == h;
    AccumulateAt(rs, key, i);
    forall x | x in rs ensures Total(Where(rs, key, key(x))) <= h.value {
      var n :| 0 <= n < |rs| && rs[n] == x;
      assert KeysFrom(rs, key)[n] == key(x);
      assert key(x) in KeysOf(d);
      var m :| 0 <= m < |d| && KeysOf(d)[m] == key(x);
      assert d[m] in d;
      AccumulateAt(rs, key, m);
    }
  }

  /**
   * Ties go to the key seen first: every distinct key seen before the key of
   * `Ranked(...)[0]` has a smaller total.
   */
  lemma RankedFirstKey<K(!new)>(rs: seq<Record>, key: Record -> K)
    requires rs != []
    ensures Ranked(rs, key) != []
    ensures exists i :: 0 <= i < |Distinct(KeysFrom(rs, key))| && Distinct(KeysFrom(rs, key))[i] == Ranked(rs, key)[0].key
                        && forall j :: 0 <= j < i ==> Total(Where(rs, key, Distinct(KeysFrom(rs, key))[j])) < Ranked(rs, key)[0].value
  {
    var d := Accumulate(rs, key);
    var ks := Distinct(KeysFrom(rs, key));
    RankedFirst(rs, key);
    var h := Ranked(rs, key)[0];
    var i :| 0 <= i < |d| && d[i] == h && forall j :: 0 <= j < i ==> d[j].value < d[i].value;
    DistinctKeyAt(rs, key, i);
    forall j | 0 <= j < i ensures Total(Where(rs, key, ks[j])) < h.value {
      DistinctKeyAt(rs, key, j);
      AccumulateAt(rs, key, j);
    }
    assert 0 <= i < |ks| && ks[i] == h.key && forall j :: 0 <= j < i ==> Total(Where(rs, key, ks[j])) < h.value;
  }
}
