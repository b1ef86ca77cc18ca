/**
 * Plain JS objects used as dictionaries from a name (category, source or
 * date) to a running sum, as the views build them with
 * `acc[k] = (acc[k] || 0) + amount`. `Object.entries` lists such an object in
 * insertion order (none of these keys is an array index), so the dictionary
 * is a sequence of entries with distinct keys, in the order the keys were
 * first added.
 */
module Tally {
  import opened Records

  datatype Entry<K> = Entry(key: K, value: real)

  predicate NoDup<K(==,!new)>(ks: seq<K>)
  {
    forall i, j :: 0 <= i < j < |ks| ==> ks[i] != ks[j]
  }

  /** `Object.keys`. */
  function KeysOf<K>(d: seq<Entry<K>>): (ks: seq<K>)
    ensures |ks| == |d|
    ensures forall i :: 0 <= i < |d| ==> ks[i] == d[i].key
  {
    if d == [] then [] else [d[0].key] + KeysOf(d[1..])
  }

  /** `d[k] || 0`: 0 for a key the dictionary lacks. */
  function Get<K(==,!new)>(d: seq<Entry<K>>, k: K): (v: real)
    ensures k !in KeysOf(d) ==> v == 0.0
  {
    if d == [] then 0.0
    else if d[0].key == k then d[0].value
    else
      assert KeysOf(d) == [d[0].key] + KeysOf(d[1..]);
      Get(d[1..], k)
  }

  /** With distinct keys, looking up the key of an entry yields that entry's value. */
  lemma {:induction false} GetAt<K(!new)>(d: seq<Entry<K>>, i: nat)
    requires NoDup(KeysOf(d)) && i < |d|
    ensures Get(d, d[i].key) == d[i].value
    decreases |d|
  {
    if i > 0 {
      assert KeysOf(d)[0] != KeysOf(d)[i];
      assert KeysOf(d[1..]) == KeysOf(d)[1..];
      GetAt(d[1..], i - 1);
    }
  }

  /** The sum of all values of the dictionary. */
  function SumValues<K>(d: seq<Entry<K>>): real
  {
    if d == [] then 0.0 else d[0].value + SumValues(d[1..])
  }

  /** `d[k] = (d[k] || 0) + v`: update the entry for `k`, or append a new one. */
  function Add<K(==,!new)>(d: seq<Entry<K>>, k: K, v: real): (r: seq<Entry<K>>)
    ensures KeysOf(r) == if k in KeysOf(d) then KeysOf(d) else KeysOf(d) + [k]
    ensures forall k' :: Get(r, k') == Get(d, k') + (if k' == k then v else 0.0)
    ensures SumValues(r) == SumValues(d) + v
  {
    if d == [] then [Entry(k, v)]
    else if d[0].key == k then [Entry(k, d[0].value + v)] + d[1..]
    else
      var rest := Add(d[1..], k, v);
      assert KeysOf([d[0]] + rest) == [d[0].key] + KeysOf(rest);
      [d[0]] + rest
  }

  /** Appending a key the list lacks keeps it free of repeats. */
  lemma NoDupSnoc<K(!new)>(ks: seq<K>, k: K)
    requires NoDup(ks) && k !in ks
    ensures NoDup(ks + [k])
  {
    forall i, j | 0 <= i < j < |ks| + 1 ensures (ks + [k])[i] != (ks + [k])[j] {
      if j == |ks| { assert ks[i] in ks; }
    }
  }

  /** The keys of a list of records, in input order. */
  function KeysFrom<K>(rs: seq<Record>, key: Record -> K): (ks: seq<K>)
    ensures |ks| == |rs| && forall i :: 0 <= i < |rs| ==> ks[i] == key(rs[i])
  {
    seq(|rs|, i requires 0 <= i < |rs| => key(rs[i]))
  }

  /** A key is listed exactly when some record has it. */
  lemma KeysFromHas<K>(rs: seq<Record>, key: Record -> K, k: K)
    ensures k in KeysFrom(rs, key) <==> exists r :: r in rs && key(r) == k
  {
    if k in KeysFrom(rs, key) {
      var i :| 0 <= i < |rs| && KeysFrom(rs, key)[i] == k;
      assert rs[i] in rs;
    }
  }

  /** The distinct elements of `ks`, each where it first occurs. */
  function Distinct<K(==,!new)>(ks: seq<K>): (r: seq<K>)
    ensures NoDup(r)
    ensures forall x :: x in r <==> x in ks
  {
    if ks == [] then []
    else
      var init, last := ks[..|ks| - 1], ks[|ks| - 1];
      assert ks == init + [last];
      var d := Distinct(init);
      if last in d then d else d + [last]
  }

  /** The dates of the records, each once, in the order they are first seen. */
  function DatesSeen(rs: seq<Record>): seq<Day>
  {
    if rs == [] then []
    else
      var ds, d := DatesSeen(rs[..|rs| - 1]), rs[|rs| - 1].date;
      if d in ds then ds else ds + [d]
  }

  lemma {:induction false} DatesSeenDistinct(rs: seq<Record>)
    ensures NoDup(DatesSeen(rs))
    decreases |rs|
  {
    if rs != [] {
      var ds, d := DatesSeen(rs[..|rs| - 1]), rs[|rs| - 1].date;
      DatesSeenDistinct(rs[..|rs| - 1]);
      if d !in ds {
        forall a, b | 0 <= a < b < |ds| + 1 ensures (ds + [d])[a] != (ds + [d])[b] {
          if b == |ds| { assert ds[a] in ds; }
        }
      }
    }
  }

  /** A date is seen exactly when some record has it. */
  lemma {:induction false} DatesSeenHas(rs: seq<Record>, d: Day)
    ensures d in DatesSeen(rs) <==> OnDay(rs, d) != []
    decreases |rs|
  {
    if rs != [] {
      var init, e := rs[..|rs| - 1], rs[|rs| - 1];
      assert rs == init + [e];
      DatesSeenHas(init, d);
      WhereSnoc(init, e, DateOf, d);
    }
  }

  /**
   * The dictionary `rs.forEach(e => acc[key(e)] = (acc[key(e)] || 0) + e.amount)`
   * leaves behind, starting from `{}`.
   */
  function Accumulate<K(==,!new)>(rs: seq<Record>, key: Record -> K): (d: seq<Entry<K>>)
    ensures NoDup(KeysOf(d))
    ensures |d| <= |rs|
  {
    if rs == [] then []
    else
      var init, last := rs[..|rs| - 1], rs[|rs| - 1];
      var prev := Accumulate(init, key);
      if key(last) !in KeysOf(prev) then
        NoDupSnoc(KeysOf(prev), key(last));
        Add(prev, key(last), last.amount)
      else Add(prev, key(last), last.amount)
  }

  /** The accumulated keys are the distinct keys of the records, in first-seen order. */
  lemma {:induction false} AccumulateKeys<K(!new)>(rs: seq<Record>, key: Record -> K)
    ensures KeysOf(Accumulate(rs, key)) == Distinct(KeysFrom(rs, key))
    decreases |rs|
  {
    if rs != [] {
      var init := rs[..|rs| - 1];
      AccumulateKeys(init, key);
      assert KeysFrom(rs, key)[..|rs| - 1] == KeysFrom(init, key);
    }
  }

  /** The accumulated value of a key is the total of the records with that key. */
  lemma {:induction false} AccumulateGet<K(!new)>(rs: seq<Record>, key: Record -> K, k: K)
    ensures Get(Accumulate(rs, key), k) == Total(Where(rs, key, k))
    decreases |rs|
  {
    if rs != [] {
      var init, last := rs[..|rs| - 1], rs[|rs| - 1];
      assert rs == init + [last];
      AccumulateGet(init, key, k);
      assert Accumulate(rs, key) == Add(Accumulate(init, key), key(last), last.amount);
      WhereSnoc(init, last, key, k);
      if key(last) == k {
        TotalSnoc(Where(init, key, k), last);
      } else {
        assert Where(rs, key, k) == Where(init, key, k);
      }
    }
  }

  /** The accumulated values add up to the total of all records. */
  lemma {:induction false} AccumulateSum<K(!new)>(rs: seq<Record>, key: Record -> K)
    ensures SumValues(Accumulate(rs, key)) == Total(rs)
    decreases |rs|
  {
    if rs != [] {
      AccumulateSum(rs[..|rs| - 1], key);
    }
  }

  lemma AccumulateEmpty<K(!new)>(rs: seq<Record>, key: Record -> K)
    ensures Accumulate(rs, key) == [] <==> rs == []
  {
    if rs != [] {
      var d := Accumulate(rs[..|rs| - 1], key);
      assert |KeysOf(Add(d, key(rs[|rs| - 1]), rs[|rs| - 1].amount))| > 0;
    }
  }

  /**
   * The forEach loop of the views that builds a sum per key
   * (`totals[e.category]`, `dayTotals[e.date]`). Its keys are the distinct
   * keys of `rs` in first-seen order, each value is the total of the records
   * with that key, and the values add up to the total of `rs`.
   */
  method SumBy<K(==,!new)>(rs: seq<Record>, key: Record -> K) returns (acc: seq<Entry<K>>)
    ensures acc == Accumulate(rs, key)
    ensures KeysOf(acc) == Distinct(KeysFrom(rs, key))
    ensures forall k :: Get(acc, k) == Total(Where(rs, key, k))
    ensures SumValues(acc) == Total(rs)
    ensures acc == [] <==> rs == []
  {
    acc := [];
    var i := 0;
    while i < |rs|
      invariant 0 <= i <= |rs|
      invariant acc == Accumulate(rs[..i], key)
    {
      acc := Add(acc, key(rs[i]), rs[i].amount);
      assert rs[..i + 1][..i] == rs[..i];
      i := i + 1;
    }
    assert rs[..i] == rs;
    AccumulateFacts(rs, key);
  }

  /** Everything the accumulated dictionary is known to satisfy, at once. */
  lemma AccumulateFacts<K(!new)>(rs: seq<Record>, key: Record -> K)
    ensures KeysOf(Accumulate(rs, key)) == Distinct(KeysFrom(rs, key))
    ensures forall k :: Get(Accumulate(rs, key), k) == Total(Where(rs, key, k))
    ensures SumValues(Accumulate(rs, key)) == Total(rs)
    ensures Accumulate(rs, key) == [] <==> rs == []
  {
    AccumulateKeys(rs, key);
    forall k ensures Get(Accumulate(rs, key), k) == Total(Where(rs, key, k)) {
      AccumulateGet(rs, key, k);
    }
    AccumulateSum(rs, key);
    AccumulateEmpty(rs, key);
  }
}
