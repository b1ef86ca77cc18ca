/**
 * `Object.entries(d).sort((a, b) => b[1] - a[1])`: dictionary entries sorted
 * by value, largest first. `Array.prototype.sort` is stable, so entries with
 * equal values keep the order they had in the dictionary, which is the order
 * their keys were first seen.
 */
module Ranking {
  import opened Tally

  /** Largest value first. */
  predicate NonIncreasing<K>(s: seq<Entry<K>>)
  {
    forall i, j :: 0 <= i < j < |s| ==> s[i].value >= s[j].value
  }

  /** The entries of `s` whose value is `v`, in the order of `s`. */
  function WithValue<K>(s: seq<Entry<K>>, v: real): seq<Entry<K>>
  {
    if s == [] then [] else (if s[0].value == v then [s[0]] else []) + WithValue(s[1..], v)
  }

  /** Insert `e` before the first entry of `t` whose value is not larger. */
  function Insert<K(!new)>(e: Entry<K>, t: seq<Entry<K>>): (r: seq<Entry<K>>)
    ensures |r| == |t| + 1
    ensures multiset(r) == multiset(t) + multiset{e}
    ensures r[0] == e || (t != [] && r[0] == t[0])
  {
    if t == [] || t[0].value <= e.value then [e] + t
    else
      var rest := Insert(e, t[1..]);
      assert t == [t[0]] + t[1..];
      [t[0]] + rest
  }

  /** Every entry of `Insert(e, t)` is at most `v` when `e` and every entry of `t` are. */
  lemma InsertBounded<K(!new)>(e: Entry<K>, t: seq<Entry<K>>, v: real)
    requires e.value <= v && forall x :: x in t ==> x.value <= v
    ensures forall x :: x in Insert(e, t) ==> x.value <= v
  {
    forall x | x in Insert(e, t) ensures x.value <= v {
      assert x in multiset(Insert(e, t));
    }
  }

  /** The first entry of a non-increasing sequence is its largest. */
  lemma HeadLargest<K>(t: seq<Entry<K>>)
    requires t != [] && NonIncreasing(t)
    ensures forall x :: x in t ==> x.value <= t[0].value
  {
    forall x | x in t ensures x.value <= t[0].value {
      var k :| 0 <= k < |t| && t[k] == x;
    }
  }

  /** Putting an entry at least as large as all of `s` in front keeps it non-increasing. */
  lemma ConsSorted<K>(h: Entry<K>, s: seq<Entry<K>>)
    requires NonIncreasing(s) && forall x :: x in s ==> x.value <= h.value
    ensures NonIncreasing([h] + s)
  {
    var r := [h] + s;
    forall i, j | 0 <= i < j < |r| ensures r[i].value >= r[j].value {
      assert r[j] == s[j - 1] && s[j - 1] in s;
      if i > 0 {
        assert r[i] == s[i - 1];
      }
    }
  }

  lemma {:induction false} InsertSorted<K(!new)>(e: Entry<K>, t: seq<Entry<K>>)
    requires NonIncreasing(t)
    ensures NonIncreasing(Insert(e, t))
    decreases |t|
  {
    if t == [] || t[0].value <= e.value {
      if t != [] {
        HeadLargest(t);
      }
      ConsSorted(e, t);
    } else {
      var tail := t[1..];
      InsertSorted(e, tail);
      HeadLargest(t);
      InsertBounded(e, tail, t[0].value);
      ConsSorted(t[0], Insert(e, tail));
    }
  }

  lemma NoDupCons<K(!new)>(a: K, s: seq<K>)
    ensures NoDup([a] + s) <==> a !in s && NoDup(s)
  {
    var c := [a] + s;
    if a !in s && NoDup(s) {
      forall i, j | 0 <= i < j < |c| ensures c[i] != c[j] {
        if i == 0 {
          assert c[j] == s[j - 1];
        } else {
          assert c[i] == s[i - 1] && c[j] == s[j - 1];
        }
      }
    }
    if NoDup(c) {
      forall i, j | 0 <= i < j < |s| ensures s[i] != s[j] {
        assert s[i] == c[i + 1] && s[j] == c[j + 1];
      }
      forall k | 0 <= k < |s| ensures s[k] != a {
        assert s[k] == c[k + 1] && c[0] == a && c[0] != c[k + 1];
      }
    }
  }

  /** Inserting an entry whose key is new keeps the keys distinct. */
  lemma {:induction false} InsertKeys<K(!new)>(e: Entry<K>, t: seq<Entry<K>>)
    ensures forall k :: k in KeysOf(Insert(e, t)) <==> k == e.key || k in KeysOf(t)
    ensures NoDup(KeysOf(t)) && e.key !in KeysOf(t) ==> NoDup(KeysOf(Insert(e, t)))
    decreases |t|
  {
    var r := Insert(e, t);
    if t == [] || t[0].value <= e.value {
      assert r == [e] + t;
      assert KeysOf(r) == [e.key] + KeysOf(t);
      NoDupCons(e.key, KeysOf(t));
    } else {
      InsertKeys(e, t[1..]);
      var rest := Insert(e, t[1..]);
      assert r == [t[0]] + rest;
      assert KeysOf(r) == [t[0].key] + KeysOf(rest);
      assert KeysOf(t) == [t[0].key] + KeysOf(t[1..]);
      NoDupCons(t[0].key, KeysOf(rest));
      NoDupCons(t[0].key, KeysOf(t[1..]));
    }
  }

  /** Stable sort, largest value first. */
  function SortDesc<K(!new)>(s: seq<Entry<K>>): (r: seq<Entry<K>>)
    ensures |r| == |s|
    ensures multiset(r) == multiset(s)
    ensures NonIncreasing(r)
  {
    if s == [] then []
    else
      assert s == [s[0]] + s[1..];
      var rest := SortDesc(s[1..]);
      InsertSorted(s[0], rest);
      Insert(s[0], rest)
  }

  /** Sorting keeps the keys, and keeps them distinct when they were. */
  lemma {:induction false} SortDescKeys<K(!new)>(s: seq<Entry<K>>)
    ensures forall k :: k in KeysOf(SortDesc(s)) <==> k in KeysOf(s)
    ensures NoDup(KeysOf(s)) ==> NoDup(KeysOf(SortDesc(s)))
    decreases |s|
  {
    if s != [] {
      SortDescKeys(s[1..]);
      InsertKeys(s[0], SortDesc(s[1..]));
      assert KeysOf(s) == [s[0].key] + KeysOf(s[1..]);
      NoDupCons(s[0].key, KeysOf(s[1..]));
    }
  }

  lemma WithValueCons<K>(h: Entry<K>, s: seq<Entry<K>>, v: real)
    ensures WithValue([h] + s, v) == (if h.value == v then [h] else []) + WithValue(s, v)
  {
    assert ([h] + s)[0] == h && ([h] + s)[1..] == s;
  }

  lemma {:induction false} InsertWithValue<K(!new)>(e: Entry<K>, t: seq<Entry<K>>, v: real)
    ensures WithValue(Insert(e, t), v) == (if e.value == v then [e] else []) + WithValue(t, v)
    decreases |t|
  {
    if t == [] || t[0].value <= e.value {
      WithValueCons(e, t, v);
    } else {
      var tail := t[1..];
      InsertWithValue(e, tail, v);
      WithValueCons(t[0], Insert(e, tail), v);
      WithValueCons(t[0], tail, v);
      assert t == [t[0]] + tail;
    }
  }

  /**
   * Stability: for every value, the entries having it appear in the sorted
   * output in the same order as in the input.
   */
  lemma {:induction false} SortDescStable<K(!new)>(s: seq<Entry<K>>, v: real)
    ensures WithValue(SortDesc(s), v) == WithValue(s, v)
    decreases |s|
  {
    if s != [] {
      SortDescStable(s[1..], v);
      InsertWithValue(s[0], SortDesc(s[1..]), v);
    }
  }

  lemma {:induction false} WithValueFirst<K>(s: seq<Entry<K>>, v: real)
    requires WithValue(s, v) != []
    ensures exists i :: 0 <= i < |s| && s[i] == WithValue(s, v)[0] && s[i].value == v
                        && forall j :: 0 <= j < i ==> s[j].value != v
    decreases |s|
  {
    if s[0].value != v {
      WithValueFirst(s[1..], v);
      var i :| 0 <= i < |s[1..]| && s[1..][i] == WithValue(s[1..], v)[0] && s[1..][i].value == v
               && forall j :: 0 <= j < i ==> s[1..][j].value != v;
      assert s[i + 1] == WithValue(s, v)[0];
      assert forall j :: 0 <= j < i + 1 ==> s[j].value != v by {
        forall j | 0 <= j < i + 1 ensures s[j].value != v {
          if j > 0 { assert s[j] == s[1..][j - 1]; }
        }
      }
    } else {
      assert s[0] == WithValue(s, v)[0];
    }
  }

  /** No entry is larger than the first one after sorting. */
  lemma SortDescMax<K(!new)>(s: seq<Entry<K>>)
    requires s != []
    ensures forall x :: x in s ==> x.value <= SortDesc(s)[0].value
  {
    var r := SortDesc(s);
    HeadLargest(r);
    forall x | x in s ensures x.value <= r[0].value {
      assert x in multiset(r);
    }
  }

  /**
   * The first entry after sorting (`sort(...)[0]`) has the largest value, and
   * among the entries with that value it is the one that comes first in the
   * input.
   */
  lemma SortDescFirst<K(!new)>(s: seq<Entry<K>>)
    requires s != []
    ensures forall x :: x in s ==> x.value <= SortDesc(s)[0].value
    ensures exists i :: 0 <= i < |s| && s[i] == SortDesc(s)[0]
                        && forall j :: 0 <= j < i ==> s[j].value < s[i].value
  {
    SortDescMax(s);
    var h := SortDesc(s)[0];
    SortDescStable(s, h.value);
    assert WithValue(SortDesc(s), h.value)[0] == h;
    WithValueFirst(s, h.value);
  }
}
