/** A JavaScript `Map` (or a plain object with string keys): a finite map that also
    remembers the order in which keys were first inserted. Setting an existing key
    keeps its position; deleting a key removes it from the order. */
module OrderedMaps {
  import opened Wrappers
  import opened Sorting

  datatype OrderedMap<K, V> = OrderedMap(keys: seq<K>, entries: map<K, V>) {

    /** Every key occurs once in the order, and the order lists exactly the mapped keys. */
    predicate Valid() {
      AllDistinct(keys)
      && (forall k | k in keys :: k in entries)
      && (forall k | k in entries :: k in keys)
    }

    /** `m.set(k, v)` */
    function Set(k: K, v: V): (r: OrderedMap<K, V>)
      ensures Valid() ==> r.Valid()
      ensures r.entries == entries[k := v]
      ensures k in entries ==> r.keys == keys
      ensures k !in entries ==> r.keys == keys + [k]
    {
      if k in entries then OrderedMap(keys, entries[k := v])
      else OrderedMap(keys + [k], entries[k := v])
    }

    /** `m.delete(k)` */
    function Delete(k: K): (r: OrderedMap<K, V>)
      requires Valid()
      ensures r.Valid()
      ensures r.entries == entries - {k}
      ensures r.keys == RemoveKey(keys, k)
    {
      RemoveKeyMembers(keys, k);
      RemoveKeyDistinct(keys, k);
      var r := OrderedMap(RemoveKey(keys, k), entries - {k});
      assert AllDistinct(r.keys);
      assert forall x | x in r.keys :: x in r.entries;
      assert forall x | x in r.entries :: x in r.keys;
      r
    }

    /** `[...m.values()]` */
    function Values(): (r: seq<V>)
      requires Valid()
      ensures |r| == |keys|
      ensures forall i | 0 <= i < |keys| :: r[i] == entries[keys[i]]
    {
      seq(|keys|, i requires 0 <= i < |keys| && keys[i] in entries => entries[keys[i]])
    }

    /** `[...m.entries()]` */
    function Items(): (r: seq<(K, V)>)
      requires Valid()
      ensures |r| == |keys|
      ensures forall i | 0 <= i < |keys| :: r[i] == (keys[i], entries[keys[i]])
    {
      seq(|keys|, i requires 0 <= i < |keys| && keys[i] in entries => (keys[i], entries[keys[i]]))
    }

    /** `m.size` */
    function Size(): nat {
      |keys|
    }
  }

  function Empty<K, V>(): (r: OrderedMap<K, V>)
    ensures r.Valid() && r.entries == map[] && r.keys == []
  {
    OrderedMap([], map[])
  }

  /** The position of a mapped key in the order. */
  lemma KeyIndex<K, V>(m: OrderedMap<K, V>, k: K) returns (j: nat)
    requires m.Valid() && k in m.entries
    ensures j < |m.keys| && m.keys[j] == k
  {
    assert k in m.keys;
    j :| 0 <= j < |m.keys| && m.keys[j] == k;
  }

  /** `keys` without `k`, others in order. */
  function RemoveKey<K(==)>(keys: seq<K>, k: K): (r: seq<K>)
    decreases |keys|
  {
    if keys == [] then []
    else if keys[0] == k then RemoveKey(keys[1..], k)
    else [keys[0]] + RemoveKey(keys[1..], k)
  }

  lemma {:induction false} RemoveKeyMembers<K>(keys: seq<K>, k: K)
    ensures forall x :: x in RemoveKey(keys, k) <==> x in keys && x != k
    decreases |keys|
  {
    if keys != [] { RemoveKeyMembers(keys[1..], k); }
  }

  /** A list without repeats has as many elements as its set. */
  lemma {:induction false} DistinctCard<K>(keys: seq<K>)
    requires AllDistinct(keys)
    ensures |set k | k in keys| == |keys|
    decreases |keys|
  {
    if keys != [] {
      var n := |keys| - 1;
      var init := keys[..n];
      assert AllDistinct(init) by {
        forall i, j | 0 <= i < j < |init| ensures init[i] != init[j] {
          assert init[i] == keys[i] && init[j] == keys[j];
        }
      }
      DistinctCard(init);
      assert keys == init + [keys[n]];
      assert (set k | k in keys) == (set k | k in init) + {keys[n]};
      assert keys[n] !in init by {
        forall i | 0 <= i < |init| ensures init[i] != keys[n] {
          assert init[i] == keys[i];
        }
      }
    }
  }

  /** The number of keys in the order is the number of mapped keys (`Object.keys(m).length`
      counts every entry once). */
  lemma SizeIsCount<K, V>(m: OrderedMap<K, V>)
    requires m.Valid()
    ensures |m.keys| == |m.entries|
  {
    DistinctCard(m.keys);
    assert m.entries.Keys == set k | k in m.keys;
  }

  /** Deleting a key shortens the key list by one exactly when the key was there. */
  lemma DeleteSize<K, V>(m: OrderedMap<K, V>, k: K)
    requires m.Valid()
    ensures |m.Delete(k).keys| == |m.keys| - (if k in m.entries then 1 else 0)
  {
    var r := m.Delete(k);
    SizeIsCount(m);
    SizeIsCount(r);
    if k in m.entries {
      assert m.entries.Keys == r.entries.Keys + {k};
    } else {
      assert m.entries.Keys == r.entries.Keys;
    }
  }

  /** Removing the last key of a list that held it once gives the rest back. */
  lemma {:induction false} RemoveKeyAppended<K>(keys: seq<K>, k: K)
    requires k !in keys
    ensures RemoveKey(keys + [k], k) == keys
    decreases |keys|
  {
    if keys == [] {
      assert [k][1..] == [];
    } else {
      assert (keys + [k])[1..] == keys[1..] + [k];
      RemoveKeyAppended(keys[1..], k);
    }
  }

  /** Deleting a key just added undoes the addition, order included. */
  lemma DeleteUndoesSet<K, V>(m: OrderedMap<K, V>, k: K, v: V)
    requires m.Valid() && k !in m.entries
    ensures m.Set(k, v).Delete(k) == m
  {
    RemoveKeyAppended(m.keys, k);
  }

  /** The entries list holds each key once, with its value. */
  lemma ItemsAt<K, V>(m: OrderedMap<K, V>, k: K)
    requires m.Valid()
    ensures (exists i | 0 <= i < |m.Items()| :: m.Items()[i].0 == k) <==> k in m.entries
    ensures forall i | 0 <= i < |m.Items()| && m.Items()[i].0 == k :: m.Items()[i].1 == m.entries[k]
  {
    if k in m.entries {
      var i :| 0 <= i < |m.keys| && m.keys[i] == k;
      assert m.Items()[i].0 == k;
    }
  }

  /** Any key but `k`. */
  function Except<K(==)>(k: K): K -> bool {
    x => x != k
  }

  /** Removing a key is filtering it out. */
  lemma {:induction false} RemoveKeyIsFilter<K>(keys: seq<K>, k: K)
    ensures RemoveKey(keys, k) == Filter(keys, Except(k))
    decreases |keys|
  {
    if keys != [] {
      RemoveKeyIsFilter(keys[1..], k);
      assert keys == [keys[0]] + keys[1..];
      FilterAppend([keys[0]], keys[1..], Except(k));
      assert Filter([keys[0]], Except(k)) == if keys[0] != k then [keys[0]] else [] by {
        assert [keys[0]][..0] == [];
      }
    }
  }

  lemma {:induction false} RemoveKeyDistinct<K>(keys: seq<K>, k: K)
    requires AllDistinct(keys)
    ensures AllDistinct(RemoveKey(keys, k))
    decreases |keys|
  {
    if keys != [] {
      var tail := keys[1..];
      assert AllDistinct(tail) by {
        forall i, j | 0 <= i < j < |tail| ensures tail[i] != tail[j] {
          assert tail[i] == keys[i + 1] && tail[j] == keys[j + 1];
        }
      }
      RemoveKeyDistinct(tail, k);
      RemoveKeyMembers(tail, k);
      var rest := RemoveKey(tail, k);
      if keys[0] != k {
        forall m | 0 <= m < |tail| ensures tail[m] != keys[0] {
          assert tail[m] == keys[m + 1];
        }
        assert keys[0] !in rest;
        var r := [keys[0]] + rest;
        forall i, j | 0 <= i < j < |r| ensures r[i] != r[j] {
          if i == 0 { assert r[j] == rest[j - 1]; assert r[j] in rest; }
          else { assert r[i] == rest[i - 1] && r[j] == rest[j - 1]; }
        }
      }
    }
  }

  /** Building a map by setting the pairs of a list one after another (`new Map(pairs)`,
      or a loop of `m.set`). */
  function FromPairs<K, V>(pairs: seq<(K, V)>): (r: OrderedMap<K, V>)
    ensures r.Valid()
    ensures forall i | 0 <= i < |pairs| :: pairs[i].0 in r.entries
    ensures forall k | k in r.entries :: exists i | 0 <= i < |pairs| :: pairs[i].0 == k
    decreases |pairs|
  {
    if pairs == [] then Empty()
    else FromPairs(pairs[..|pairs| - 1]).Set(pairs[|pairs| - 1].0, pairs[|pairs| - 1].1)
  }

  /** No later pair sets the key of pair `i` again. */
  predicate LastKeyAt<K(==), V>(pairs: seq<(K, V)>, i: nat)
    requires i < |pairs|
  {
    forall j | i < j < |pairs| :: pairs[j].0 != pairs[i].0
  }

  /** A key ends up with the value of the last pair that sets it. */
  lemma {:induction false} FromPairsLast<K, V>(pairs: seq<(K, V)>)
    ensures forall i | 0 <= i < |pairs| && LastKeyAt(pairs, i) :: FromPairs(pairs).entries[pairs[i].0] == pairs[i].1
    decreases |pairs|
  {
    if pairs != [] {
      var n := |pairs| - 1;
      var init := pairs[..n];
      FromPairsLast(init);
      var prev := FromPairs(init);
      assert FromPairs(pairs).entries == prev.entries[pairs[n].0 := pairs[n].1];
      forall i | 0 <= i < |pairs| && LastKeyAt(pairs, i) ensures FromPairs(pairs).entries[pairs[i].0] == pairs[i].1 {
        if i < n {
          assert init[i] == pairs[i];
          assert LastKeyAt(init, i) by {
            forall j | i < j < |init| ensures init[j].0 != init[i].0 {
              assert init[j] == pairs[j];
            }
          }
          assert pairs[n].0 != pairs[i].0;
          assert prev.entries[pairs[i].0] == pairs[i].1;
        } else {
          assert i == n;
        }
      }
    }
  }

  /** No earlier element has the key of element `i`. */
  predicate FirstKeyAt<T, K(==)>(s: seq<T>, i: nat, key: T -> K)
    requires i < |s|
  {
    forall m | 0 <= m < i :: key(s[m]) != key(s[i])
  }

  /** The `if (!m.has(key(x))) m.set(key(x), x)` loop over `s`: the first element seen
      with each key, keys in order of first occurrence. */
  function FirstByKey<T, K>(s: seq<T>, key: T -> K): (m: OrderedMap<K, T>)
    ensures m.Valid()
    decreases |s|
  {
    if s == [] then Empty()
    else
      var prev := FirstByKey(s[..|s| - 1], key);
      var x := s[|s| - 1];
      if key(x) in prev.entries then prev else prev.Set(key(x), x)
  }

  /** Each element's key is in the map, and each key holds the first element with that
      key. */
  lemma {:induction false} FirstByKeyMembers<T, K>(s: seq<T>, key: T -> K)
    ensures forall i | 0 <= i < |s| :: key(s[i]) in FirstByKey(s, key).entries
    ensures forall k | k in FirstByKey(s, key).entries :: key(FirstByKey(s, key).entries[k]) == k
    ensures forall i | 0 <= i < |s| && FirstKeyAt(s, i, key) :: FirstByKey(s, key).entries[key(s[i])] == s[i]
    decreases |s|
  {
    if s != [] {
      var n := |s| - 1;
      var init := s[..n];
      FirstByKeyMembers(init, key);
      var prev := FirstByKey(init, key);
      forall i | 0 <= i < |s| ensures key(s[i]) in FirstByKey(s, key).entries {
        if i < n { assert s[i] == init[i]; }
      }
      forall i | 0 <= i < |s| && FirstKeyAt(s, i, key) ensures FirstByKey(s, key).entries[key(s[i])] == s[i] {
        if i < n {
          assert s[i] == init[i];
          assert FirstKeyAt(init, i, key) by {
            forall m | 0 <= m < i ensures key(init[m]) != key(init[i]) {
              assert init[m] == s[m];
            }
          }
        } else {
          assert key(s[n]) !in prev.entries by {
            if key(s[n]) in prev.entries {
              var k := key(s[n]);
              assert key(prev.entries[k]) == k;
              FirstByKeyFrom(init, key, k);
            }
          }
        }
      }
    }
  }

  /** A key in the map is the key of some element. */
  lemma {:induction false} FirstByKeyFrom<T, K>(s: seq<T>, key: T -> K, k: K)
    requires k in FirstByKey(s, key).entries
    ensures exists i | 0 <= i < |s| :: key(s[i]) == k
    decreases |s|
  {
    var n := |s| - 1;
    var init := s[..n];
    if k in FirstByKey(init, key).entries {
      FirstByKeyFrom(init, key, k);
      var i :| 0 <= i < |init| && key(init[i]) == k;
      assert s[i] == init[i];
    } else {
      assert key(s[n]) == k;
    }
  }

  /** Every value in the map is an element. */
  lemma {:induction false} FirstByKeyValuesIn<T, K>(s: seq<T>, key: T -> K)
    ensures forall k | k in FirstByKey(s, key).entries :: FirstByKey(s, key).entries[k] in s
    decreases |s|
  {
    if s != [] {
      var init := s[..|s| - 1];
      FirstByKeyValuesIn(init, key);
      assert forall x | x in init :: x in s;
    }
  }

  /** The values of a map whose entries carry their own keys have distinct keys. */
  lemma ValuesKeysDistinct<K, T>(m: OrderedMap<K, T>, key: T -> K)
    requires m.Valid()
    requires forall k | k in m.entries :: key(m.entries[k]) == k
    ensures KeysDistinct(m.Values(), key)
  {
    var v := m.Values();
    forall i, j | 0 <= i < j < |v| ensures key(v[i]) != key(v[j]) {
      assert v[i] == m.entries[m.keys[i]] && v[j] == m.entries[m.keys[j]];
    }
  }

  /** The values kept are elements with distinct keys, and include every element that is
      the first with its key. */
  lemma FirstByKeyValues<T, K>(s: seq<T>, key: T -> K)
    ensures KeysDistinct(FirstByKey(s, key).Values(), key)
    ensures forall j | 0 <= j < |s| && FirstKeyAt(s, j, key) :: s[j] in FirstByKey(s, key).Values()
    ensures forall x | x in FirstByKey(s, key).Values() :: x in s
  {
    var m := FirstByKey(s, key);
    FirstByKeyMembers(s, key);
    ValuesKeysDistinct(m, key);
    forall j | 0 <= j < |s| && FirstKeyAt(s, j, key) ensures s[j] in m.Values() {
      var k :| 0 <= k < |m.keys| && m.keys[k] == key(s[j]);
      assert m.Values()[k] == s[j];
    }
    FirstByKeyValuesIn(s, key);
    forall x | x in m.Values() ensures x in s {
      var k :| 0 <= k < |m.Values()| && m.Values()[k] == x;
      assert m.keys[k] in m.entries;
    }
  }

  /** Setting a new key appends its value to the values. */
  lemma SetNewValues<K, V>(m: OrderedMap<K, V>, k: K, v: V)
    requires m.Valid() && k !in m.entries
    ensures m.Set(k, v).Values() == m.Values() + [v]
  {
    var r := m.Set(k, v);
    assert k !in m.keys;
    assert forall i | 0 <= i < |m.keys| :: r.Values()[i] == m.Values()[i];
  }

  /** One more element: set when its key is new, ignored otherwise. */
  lemma FirstByKeySnoc<T, K>(s: seq<T>, x: T, key: T -> K)
    ensures var m := FirstByKey(s, key);
      FirstByKey(s + [x], key) == if key(x) in m.entries then m else m.Set(key(x), x)
  {
    assert (s + [x])[..|s|] == s;
  }

  // ----- plain maps filled by a loop of `set` -----

  /** A loop of `m.set(k, v)` over the pairs a function picks out of a list. */
  function Tabulate<A, K, V>(s: seq<A>, f: A -> Option<(K, V)>): map<K, V>
    decreases |s|
  {
    if s == [] then map[]
    else
      var m := Tabulate(s[..|s| - 1], f);
      match f(s[|s| - 1])
      case None => m
      case Some(kv) => m[kv.0 := kv.1]
  }

  /** No later element sets the key element `i` sets. */
  predicate LastSetAt<A, K(==), V>(s: seq<A>, f: A -> Option<(K, V)>, i: nat)
    requires i < |s| && f(s[i]).Some?
  {
    forall j | i < j < |s| :: f(s[j]).Some? ==> f(s[j]).value.0 != f(s[i]).value.0
  }

  /** The keys are those some element sets, and each holds the value its last setter
      gives. */
  lemma {:induction false} TabulateMembers<A, K, V>(s: seq<A>, f: A -> Option<(K, V)>)
    ensures forall k :: k in Tabulate(s, f) <==> exists i | 0 <= i < |s| :: f(s[i]).Some? && f(s[i]).value.0 == k
    ensures forall i | 0 <= i < |s| && f(s[i]).Some? && LastSetAt(s, f, i) ::
      f(s[i]).value.0 in Tabulate(s, f) && Tabulate(s, f)[f(s[i]).value.0] == f(s[i]).value.1
  {
    TabulateKeys(s, f);
    TabulateValues(s, f);
  }

  /** The keys of `Tabulate` are those some element sets. */
  lemma {:induction false} TabulateKeys<A, K, V>(s: seq<A>, f: A -> Option<(K, V)>)
    ensures forall k :: k in Tabulate(s, f) <==> exists i | 0 <= i < |s| :: f(s[i]).Some? && f(s[i]).value.0 == k
    decreases |s|
  {
    if s != [] {
      var n := |s| - 1;
      var init := s[..n];
      TabulateKeys(init, f);
      var m := Tabulate(init, f);
      forall k ensures k in Tabulate(s, f) <==> exists i | 0 <= i < |s| :: f(s[i]).Some? && f(s[i]).value.0 == k {
        if k in m {
          var i :| 0 <= i < |init| && f(init[i]).Some? && f(init[i]).value.0 == k;
          assert s[i] == init[i];
        }
        if exists i | 0 <= i < |s| :: f(s[i]).Some? && f(s[i]).value.0 == k {
          var i :| 0 <= i < |s| && f(s[i]).Some? && f(s[i]).value.0 == k;
          if i < n { assert init[i] == s[i]; }
        }
      }
    }
  }

  /** Each key of `Tabulate` holds the value its last setter gives. */
  lemma {:induction false} TabulateValues<A, K, V>(s: seq<A>, f: A -> Option<(K, V)>)
    ensures forall i | 0 <= i < |s| && f(s[i]).Some? && LastSetAt(s, f, i) ::
      f(s[i]).value.0 in Tabulate(s, f) && Tabulate(s, f)[f(s[i]).value.0] == f(s[i]).value.1
    decreases |s|
  {
    if s != [] {
      var n := |s| - 1;
      var init := s[..n];
      TabulateValues(init, f);
      forall i | 0 <= i < |s| && f(s[i]).Some? && LastSetAt(s, f, i)
        ensures f(s[i]).value.0 in Tabulate(s, f) && Tabulate(s, f)[f(s[i]).value.0] == f(s[i]).value.1
      {
        if i < n {
          assert init[i] == s[i];
          assert LastSetAt(init, f, i) by {
            forall j | i < j < |init| ensures f(init[j]).Some? ==> f(init[j]).value.0 != f(init[i]).value.0 {
              assert init[j] == s[j];
            }
          }
        }
      }
    }
  }
}
