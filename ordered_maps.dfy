/** A std::map<std::string, V> as a sorted association list: keys strictly
    increasing in std::string order, so iteration visits them in that order. */
module OrderedMaps {

  /** std::string's operator<: lexicographic order on characters. */
  predicate StringLess(a: string, b: string)
    decreases |a|
  {
    if a == [] then b != []
    else if b == [] then false
    else if a[0] != b[0] then a[0] < b[0]
    else StringLess(a[1..], b[1..])
  }

  lemma {:induction false} StringLessIrreflexive(a: string)
    ensures !StringLess(a, a)
    decreases |a|
  {
    if a != [] {
      StringLessIrreflexive(a[1..]);
    }
  }

  lemma {:induction false} StringLessTransitive(a: string, b: string, c: string)
    requires StringLess(a, b) && StringLess(b, c)
    ensures StringLess(a, c)
    decreases |a|
  {
    if a != [] && b != [] && c != [] && a[0] == b[0] && b[0] == c[0] {
      StringLessTransitive(a[1..], b[1..], c[1..]);
    }
  }

  lemma {:induction false} StringLessTotal(a: string, b: string)
    requires a != b
    ensures StringLess(a, b) || StringLess(b, a)
    decreases |a|
  {
    if a != [] && b != [] && a[0] == b[0] {
      assert a == [a[0]] + a[1..] && b == [b[0]] + b[1..];
      StringLessTotal(a[1..], b[1..]);
    }
  }

  lemma StringLessAsymmetric(a: string, b: string)
    requires StringLess(a, b)
    ensures !StringLess(b, a) && a != b
  {
    StringLessIrreflexive(a);
    if StringLess(b, a) {
      StringLessTransitive(a, b, a);
    }
  }

  type OrderedMap<V> = seq<(string, V)>

  ghost predicate Sorted<V>(m: OrderedMap<V>)
  {
    forall i, j :: 0 <= i < j < |m| ==> StringLess(m[i].0, m[j].0)
  }

  function Keys<V(==)>(m: OrderedMap<V>): set<string>
  {
    set e | e in m :: e.0
  }

  /** std::map::insert: a new key is placed before the first greater key,
      an existing key keeps its value and the map is unchanged. */
  function Insert<V>(m: OrderedMap<V>, key: string, value: V): (r: OrderedMap<V>)
    ensures |r| == |m| || |r| == |m| + 1
    decreases |m|
  {
    if m == [] then [(key, value)]
    else if m[0].0 == key then m
    else if StringLess(key, m[0].0) then [(key, value)] + m
    else [m[0]] + Insert(m[1..], key, value)
  }

  /** Insertion keeps the keys sorted, adds the key, leaves an existing
      key's entry alone, and adds no entry but the new one. */
  lemma InsertSpec<V>(m: OrderedMap<V>, key: string, value: V)
    requires Sorted(m)
    ensures var r := Insert(m, key, value);
      Sorted(r) &&
      Keys(r) == Keys(m) + {key} &&
      (key in Keys(m) ==> r == m) &&
      (forall e :: e in m ==> e in r) &&
      (key !in Keys(m) ==> (key, value) in r) &&
      (forall e :: e in r ==> e in m || e == (key, value))
  {
    InsertSorted(m, key, value);
    if key in Keys(m) {
      var e :| e in m && e.0 == key;
      var k :| 0 <= k < |m| && m[k] == e;
      InsertExisting(m, key, value, k);
    }
    InsertKeys(m, key, value);
    InsertEntries(m, key, value);
  }

  /** The walk places the key in order, so a sorted map stays sorted. */
  lemma {:induction false} InsertSorted<V>(m: OrderedMap<V>, key: string, value: V)
    requires Sorted(m)
    ensures Sorted(Insert(m, key, value))
    decreases |m|
  {
    if m != [] && m[0].0 != key {
      if StringLess(key, m[0].0) {
        InsertBeforeSorted(m, key, value);
      } else {
        StringLessTotal(key, m[0].0);
        var tail := m[1..];
        assert Sorted(tail);
        InsertSorted(tail, key, value);
        InsertEntries(tail, key, value);
        HeadBelowAll(m, key, Insert(tail, key, value));
      }
    }
  }

  /** In a sorted map the walk meets an existing key, at `k`, before any
      greater one, so inserting it changes nothing. */
  lemma {:induction false} InsertExisting<V>(m: OrderedMap<V>, key: string, value: V, k: nat)
    requires Sorted(m) && k < |m| && m[k].0 == key
    ensures Insert(m, key, value) == m
    decreases k
  {
    if k > 0 {
      assert StringLess(m[0].0, m[k].0);
      StringLessAsymmetric(m[0].0, key);
      var tail := m[1..];
      assert Sorted(tail);
      assert tail[k - 1] == m[k];
      InsertExisting(tail, key, value, k - 1);
      assert m == [m[0]] + tail;
    }
  }

  /** Insertion adds exactly the key to the keys. */
  lemma {:induction false} InsertKeys<V>(m: OrderedMap<V>, key: string, value: V)
    ensures Keys(Insert(m, key, value)) == Keys(m) + {key}
    decreases |m|
  {
    if m == [] {
      assert Keys([(key, value)]) == {key} by {
        KeysCons((key, value), []);
      }
    } else if m[0].0 == key {
      assert m == [m[0]] + m[1..];
      KeysCons(m[0], m[1..]);
    } else if StringLess(key, m[0].0) {
      KeysCons((key, value), m);
    } else {
      InsertKeys(m[1..], key, value);
      assert m == [m[0]] + m[1..];
      KeysCons(m[0], m[1..]);
      KeysCons(m[0], Insert(m[1..], key, value));
    }
  }

  /** Insertion loses no entry and adds none but the new one, which it
      adds when the key is new. */
  lemma {:induction false} InsertEntries<V>(m: OrderedMap<V>, key: string, value: V)
    ensures forall e :: e in m ==> e in Insert(m, key, value)
    ensures forall e :: e in Insert(m, key, value) ==> e in m || e == (key, value)
    ensures key !in Keys(m) ==> (key, value) in Insert(m, key, value)
    decreases |m|
  {
    if m != [] && m[0].0 != key && !StringLess(key, m[0].0) {
      InsertEntries(m[1..], key, value);
      assert m == [m[0]] + m[1..];
      assert m[0] in m;
      KeysCons(m[0], m[1..]);
    }
  }

  lemma KeysCons<V>(e: (string, V), m: OrderedMap<V>)
    ensures Keys([e] + m) == {e.0} + Keys(m)
  {
    assert forall x :: x in [e] + m <==> x == e || x in m;
  }

  lemma InsertBeforeSorted<V>(m: OrderedMap<V>, key: string, value: V)
    requires Sorted(m) && m != [] && StringLess(key, m[0].0)
    ensures Sorted([(key, value)] + m)
    ensures key !in Keys(m)
  {
    if key in Keys(m) {
      var e :| e in m && e.0 == key;
      var k :| 0 <= k < |m| && m[k] == e;
      if k > 0 {
        StringLessTransitive(key, m[0].0, m[k].0);
      }
      StringLessIrreflexive(key);
    }
    var r := [(key, value)] + m;
    forall i, j | 0 <= i < j < |r|
      ensures StringLess(r[i].0, r[j].0)
    {
      if i == 0 && j > 1 {
        StringLessTransitive(key, m[0].0, m[j - 1].0);
      }
    }
  }

  /** A head below the inserted key stays below a tail made of its old
      tail and that key. */
  lemma HeadBelowAll<V>(m: OrderedMap<V>, key: string, rest: OrderedMap<V>)
    requires Sorted(m) && m != [] && StringLess(m[0].0, key)
    requires Sorted(rest) && forall e :: e in rest ==> e in m[1..] || e.0 == key
    ensures Sorted([m[0]] + rest)
  {
    var r := [m[0]] + rest;
    forall i, j | 0 <= i < j < |r|
      ensures StringLess(r[i].0, r[j].0)
    {
      if i == 0 {
        var e := rest[j - 1];
        assert e in rest;
        if e.0 != key {
          var k :| 0 <= k < |m[1..]| && m[1..][k] == e;
          assert m[k + 1] == e;
        }
      }
    }
  }

  /** The map made by inserting the entries in order, as getMap does. */
  function FromEntries<V(==)>(entries: seq<(string, V)>): (r: OrderedMap<V>)
    ensures Sorted(r)
    decreases |entries|
  {
    if entries == [] then []
    else
      InsertSorted(FromEntries(entries[..|entries| - 1]), entries[|entries| - 1].0, entries[|entries| - 1].1);
      Insert(FromEntries(entries[..|entries| - 1]), entries[|entries| - 1].0, entries[|entries| - 1].1)
  }

  /** Index of the first entry with a key, if any. */
  ghost predicate FirstWithKey<V>(entries: seq<(string, V)>, i: int)
  {
    0 <= i < |entries| && forall j :: 0 <= j < i ==> entries[j].0 != entries[i].0
  }

  /** The keys of the map are the keys of the input. */
  lemma {:induction false} FromEntriesKeys<V>(entries: seq<(string, V)>)
    ensures Keys(FromEntries(entries)) == set e | e in entries :: e.0
    decreases |entries|
  {
    if entries != [] {
      var n := |entries| - 1;
      FromEntriesKeys(entries[..n]);
      InsertKeys(FromEntries(entries[..n]), entries[n].0, entries[n].1);
      assert entries == entries[..n] + [entries[n]];
      assert (set e | e in entries :: e.0) == (set e | e in entries[..n] :: e.0) + {entries[n].0};
    }
  }

  /** Every entry of the map is an entry of the input. */
  lemma {:induction false} FromEntriesFromInput<V>(entries: seq<(string, V)>)
    ensures forall e :: e in FromEntries(entries) ==> e in entries
    decreases |entries|
  {
    if entries != [] {
      var n := |entries| - 1;
      var m := FromEntries(entries[..n]);
      FromEntriesFromInput(entries[..n]);
      var r := Insert(m, entries[n].0, entries[n].1);
      InsertEntries(m, entries[n].0, entries[n].1);
      forall e | e in r
        ensures e in entries
      {
        if e in m {
          assert e in entries[..n];
        }
      }
    }
  }

  /** An entry whose key does not occur before it finds its key absent
      from the map built from the entries before it. */
  lemma NewKeyAbsent<V>(entries: seq<(string, V)>)
    requires FirstWithKey(entries, |entries| - 1)
    ensures entries[|entries| - 1].0 !in Keys(FromEntries(entries[..|entries| - 1]))
  {
    var n := |entries| - 1;
    var pre := entries[..n];
    FromEntriesKeys(pre);
    forall e | e in pre
      ensures e.0 != entries[n].0
    {
      var k :| 0 <= k < n && pre[k] == e;
      assert entries[k] == e;
    }
  }

  /** For each key the map keeps the value of its first occurrence. */
  lemma {:induction false} FromEntriesFirstWins<V>(entries: seq<(string, V)>)
    ensures forall i :: FirstWithKey(entries, i) ==> entries[i] in FromEntries(entries)
    decreases |entries|
  {
    if entries != [] {
      var n := |entries| - 1;
      var pre := entries[..n];
      FromEntriesFirstWins(pre);
      InsertEntries(FromEntries(pre), entries[n].0, entries[n].1);
      forall i | FirstWithKey(entries, i)
        ensures entries[i] in FromEntries(entries)
      {
        if i < n {
          assert FirstWithKey(pre, i);
        } else {
          NewKeyAbsent(entries);
        }
      }
    }
  }
}
