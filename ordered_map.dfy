/** A string-keyed ordered map, the model of Rust's `BTreeMap<String, V>`:
    an association list whose keys are strictly increasing. The list order is
    the map's iteration order, so "each key once, visited in key order" is the
    type's invariant. */
module OrderedMap {
  import opened Base

  /** Rust's `Ord` on `String`: lexicographic on the UTF-8 bytes, which is the
      same as lexicographic on scalar values, with a proper prefix first. */
  predicate Less(a: string, b: string)
    decreases |a|
  {
    if a == [] then b != []
    else if b == [] then false
    else if a[0] != b[0] then a[0] < b[0]
    else Less(a[1..], b[1..])
  }

  lemma {:induction false} LessIrreflexive(a: string)
    ensures !Less(a, a)
    decreases |a|
  {
    if a != [] {
      LessIrreflexive(a[1..]);
    }
  }

  lemma {:induction false} LessTransitive(a: string, b: string, c: string)
    requires Less(a, b) && Less(b, c)
    ensures Less(a, c)
    decreases |a|
  {
    if a != [] && a[0] == b[0] && b[0] == c[0] {
      LessTransitive(a[1..], b[1..], c[1..]);
    }
  }

  lemma {:induction false} LessTotal(a: string, b: string)
    requires a != b
    ensures Less(a, b) || Less(b, a)
    decreases |a|
  {
    if a != [] && b != [] && a[0] == b[0] {
      assert a == [a[0]] + a[1..] && b == [b[0]] + b[1..];
      LessTotal(a[1..], b[1..]);
    }
  }

  /** Keys strictly increase along the list. */
  ghost predicate StrictlySorted<V>(m: seq<(string, V)>) {
    forall i, j :: 0 <= i < j < |m| ==> Less(m[i].0, m[j].0)
  }

  type Map<V> = m: seq<(string, V)> | StrictlySorted(m) witness []

  function Keys<V>(m: seq<(string, V)>): set<string> {
    set i | 0 <= i < |m| :: m[i].0
  }

  /** The value stored under `k`. */
  function Get<V>(m: seq<(string, V)>, k: string): Option<V> {
    if m == [] then None else if m[0].0 == k then Some(m[0].1) else Get(m[1..], k)
  }

  /** `BTreeMap::insert`: store `v` under `k`, replacing an earlier value. */
  function Insert<V>(m: seq<(string, V)>, k: string, v: V): seq<(string, V)> {
    if m == [] then [(k, v)]
    else if m[0].0 == k then [(k, v)] + m[1..]
    else if Less(k, m[0].0) then [(k, v)] + m
    else [m[0]] + Insert(m[1..], k, v)
  }

  /** Inserting keeps the keys strictly increasing, adds exactly `k`, and
      makes `k` map to `v` while every other key keeps its value. */
  lemma {:induction false} InsertSpec<V>(m: seq<(string, V)>, k: string, v: V)
    requires StrictlySorted(m)
    ensures StrictlySorted(Insert(m, k, v))
    ensures Keys(Insert(m, k, v)) == Keys(m) + {k}
    ensures forall k' :: Get(Insert(m, k, v), k') == if k' == k then Some(v) else Get(m, k')
  {
    var r := Insert(m, k, v);
    if m == [] {
      assert r[0].0 == k;
    } else if m[0].0 == k {
      assert r[1..] == m[1..];
      assert Keys(r) == Keys(m) by {
        assert forall i :: 0 <= i < |m| ==> r[i].0 == m[i].0;
      }
      SortedTailGet(m);
    } else if Less(k, m[0].0) {
      assert r[1..] == m;
      forall i, j | 0 <= i < j < |r| ensures Less(r[i].0, r[j].0) {
        if i == 0 && j > 1 { LessTransitive(k, m[0].0, m[j - 1].0); }
      }
      KeysCons((k, v), m);
      forall k' ensures Get(r, k') == if k' == k then Some(v) else Get(m, k') {
        assert r[1..] == m;
      }
    } else {
      LessTotal(k, m[0].0);
      var tail := Insert(m[1..], k, v);
      InsertSpec(m[1..], k, v);
      assert r == [m[0]] + tail;
      forall key | key in Keys(tail) ensures Less(m[0].0, key) {
        if key != k {
          var t :| 0 <= t < |m[1..]| && m[1..][t].0 == key;
          assert m[t + 1].0 == key;
        }
      }
      ConsSorted(m[0], tail);
      KeysCons(m[0], tail);
      KeysCons(m[0], m[1..]);
      assert [m[0]] + m[1..] == m;
    }
  }

  /** A key below every key of a sorted list can be put in front of it. */
  lemma ConsSorted<V>(x: (string, V), tail: seq<(string, V)>)
    requires StrictlySorted(tail)
    requires forall key | key in Keys(tail) :: Less(x.0, key)
    ensures StrictlySorted([x] + tail)
  {
    var r := [x] + tail;
    forall i, j | 0 <= i < j < |r| ensures Less(r[i].0, r[j].0) {
      assert r[j] == tail[j - 1];
      if i == 0 {
        assert r[j].0 in Keys(tail);
      } else {
        assert r[i] == tail[i - 1];
      }
    }
  }

  lemma KeysCons<V>(x: (string, V), m: seq<(string, V)>)
    ensures Keys([x] + m) == {x.0} + Keys(m)
  {
    var r := [x] + m;
    forall key | key in Keys(r) ensures key in {x.0} + Keys(m) {
      var i :| 0 <= i < |r| && r[i].0 == key;
      if i > 0 { assert m[i - 1].0 == key; }
    }
    forall key | key in Keys(m) ensures key in Keys(r) {
      var i :| 0 <= i < |m| && m[i].0 == key;
      assert r[i + 1].0 == key;
    }
    assert r[0].0 == x.0;
  }

  /** In a strictly sorted list the head's key occurs nowhere else. */
  lemma SortedTailGet<V>(m: seq<(string, V)>)
    requires StrictlySorted(m) && m != []
    ensures Get(m[1..], m[0].0) == None
  {
    assert forall i :: 0 <= i < |m[1..]| ==> Less(m[0].0, m[1..][i].0);
    NotInKeysGet(m[1..], m[0].0);
  }

  /** Looking up a key that is not stored finds nothing. */
  lemma {:induction false} NotInKeysGet<V>(m: seq<(string, V)>, k: string)
    requires forall i :: 0 <= i < |m| ==> m[i].0 != k || Less(k, m[i].0)
    ensures Get(m, k) == None
  {
    if m != [] {
      LessIrreflexive(k);
      NotInKeysGet(m[1..], k);
    }
  }

  /** `BTreeMap`'s `FromIterator`/deserialisation: insert the entries in
      order, a later entry for a key overwriting an earlier one. */
  function FromEntries<V>(es: seq<(string, V)>): (m: Map<V>)
    ensures Keys(m) == Keys(es)
    decreases |es|
  {
    if es == [] then []
    else
      var prefix := es[..|es| - 1];
      var last := es[|es| - 1];
      var m := FromEntries(prefix);
      InsertSpec(m, last.0, last.1);
      assert Keys(es) == Keys(prefix) + {last.0} by {
        assert forall i :: 0 <= i < |prefix| ==> prefix[i] == es[i];
      }
      Insert(m, last.0, last.1)
  }

  /** The value of the last entry for `k`, if any. */
  function LastValue<V>(es: seq<(string, V)>, k: string): Option<V>
    decreases |es|
  {
    if es == [] then None
    else if es[|es| - 1].0 == k then Some(es[|es| - 1].1)
    else LastValue(es[..|es| - 1], k)
  }

  /** After building the map, each key holds the value of its last entry. */
  lemma {:induction false} GetFromEntries<V>(es: seq<(string, V)>, k: string)
    ensures Get(FromEntries(es), k) == LastValue(es, k)
    decreases |es|
  {
    if es != [] {
      var prefix := es[..|es| - 1];
      var last := es[|es| - 1];
      InsertSpec(FromEntries(prefix), last.0, last.1);
      GetFromEntries(prefix, k);
    }
  }

  /** An already sorted list is rebuilt unchanged: decoding what a map
      serialises to gives the same map back. */
  lemma {:induction false} FromEntriesOfSorted<V>(m: Map<V>)
    ensures FromEntries(m) == m
    decreases |m|
  {
    if m != [] {
      var prefix := m[..|m| - 1];
      var last := m[|m| - 1];
      assert StrictlySorted(prefix);
      FromEntriesOfSorted(prefix);
      InsertAfterAll(prefix, last.0, last.1);
      assert prefix + [last] == m;
    }
  }

  /** Inserting a key above every stored key appends it. */
  lemma {:induction false} InsertAfterAll<V>(m: seq<(string, V)>, k: string, v: V)
    requires forall i :: 0 <= i < |m| ==> Less(m[i].0, k)
    ensures Insert(m, k, v) == m + [(k, v)]
  {
    if m != [] {
      LessIrreflexive(k);
      if Less(k, m[0].0) { LessTransitive(k, m[0].0, k); }
      InsertAfterAll(m[1..], k, v);
      assert m == [m[0]] + m[1..];
    }
  }
}
