/**
 * A JavaScript `Map` as a sequence of entries in insertion order. Setting a key that is
 * already there replaces its value where it stands; setting a new key appends it. The
 * scheduler's keyed merges, the calculator's de-duplication and the connector registry
 * are all built on this.
 */
module OrderedMaps {
  import opened Wrappers

  datatype Entry<K, V> = Entry(key: K, value: V)

  /** `[...map.keys()]`. */
  function Keys<K(==), V>(m: seq<Entry<K, V>>): (r: seq<K>)
    ensures |r| == |m| && forall i :: 0 <= i < |m| ==> r[i] == m[i].key
  {
    if m == [] then [] else [m[0].key] + Keys(m[1..])
  }

  /** `[...map.values()]`. */
  function Values<K(==), V>(m: seq<Entry<K, V>>): (r: seq<V>)
    ensures |r| == |m| && forall i :: 0 <= i < |m| ==> r[i] == m[i].value
  {
    if m == [] then [] else [m[0].value] + Values(m[1..])
  }

  /** No key occurs twice. */
  predicate Distinct<K(==)>(ks: seq<K>) {
    forall i, j :: 0 <= i < j < |ks| ==> ks[i] != ks[j]
  }

  /** `map.get(k)`: the value stored under `k`, or none. */
  function Get<K(==), V>(m: seq<Entry<K, V>>, k: K): (r: Option<V>)
    ensures r.None? <==> k !in Keys(m)
  {
    if m == [] then None else if m[0].key == k then Some(m[0].value) else Get(m[1..], k)
  }

  /** `map.set(k, v)`. */
  function Put<K(==), V>(m: seq<Entry<K, V>>, k: K, v: V): seq<Entry<K, V>> {
    if m == [] then [Entry(k, v)]
    else if m[0].key == k then [Entry(k, v)] + m[1..]
    else [m[0]] + Put(m[1..], k, v)
  }

  /** The keys after `map.set(k, v)`: unchanged when `k` is there, else `k` appended. */
  function AddKey<K(==)>(ks: seq<K>, k: K): seq<K> {
    if k in ks then ks else ks + [k]
  }

  /** A set keeps the keys in place, or appends the new one. */
  lemma {:induction false} PutKeys<K, V>(m: seq<Entry<K, V>>, k: K, v: V)
    ensures Keys(Put(m, k, v)) == AddKey(Keys(m), k)
  {
    if m != [] && m[0].key != k {
      PutKeys(m[1..], k, v);
      assert Keys(m) == [m[0].key] + Keys(m[1..]);
    }
  }

  /** After a set, the key reads back its new value, and every other key reads what it read before. */
  lemma {:induction false} PutGet<K, V>(m: seq<Entry<K, V>>, k: K, v: V, q: K)
    ensures Get(Put(m, k, v), q) == if q == k then Some(v) else Get(m, q)
  {
    if m != [] && m[0].key != k {
      PutGet(m[1..], k, v, q);
    }
  }

  /** A set keeps the keys distinct. */
  lemma PutDistinct<K, V>(m: seq<Entry<K, V>>, k: K, v: V)
    requires Distinct(Keys(m))
    ensures Distinct(Keys(Put(m, k, v)))
  {
    PutKeys(m, k, v);
    AddKeyDistinct(Keys(m), k);
  }

  lemma AddKeyDistinct<K>(ks: seq<K>, k: K)
    requires Distinct(ks)
    ensures Distinct(AddKey(ks, k))
  {
    if k !in ks {
      var r := ks + [k];
      forall i, j | 0 <= i < j < |r|
        ensures r[i] != r[j]
      {
        if j == |ks| {
          assert r[i] == ks[i] && r[j] == k;
        } else {
          assert r[i] == ks[i] && r[j] == ks[j];
        }
      }
    }
  }

  /** Every entry stores a value whose key is its own key. */
  ghost predicate KeyedBy<K, V>(m: seq<Entry<K, V>>, key: V -> K) {
    forall i :: 0 <= i < |m| ==> key(m[i].value) == m[i].key
  }

  lemma {:induction false} PutKeyed<K, V>(m: seq<Entry<K, V>>, key: V -> K, v: V)
    requires KeyedBy(m, key)
    ensures KeyedBy(Put(m, key(v), v), key)
  {
    if m != [] && m[0].key != key(v) {
      PutKeyed(m[1..], key, v);
      var r := Put(m, key(v), v);
      assert r == [m[0]] + Put(m[1..], key(v), v);
      forall i | 0 <= i < |r|
        ensures key(r[i].value) == r[i].key
      {
        if i > 0 {
          assert r[i] == Put(m[1..], key(v), v)[i - 1];
        }
      }
    }
  }

  /**
   * `xs.forEach((x) => { if (keep(x)) map.set(key(x), val(x)); })`: the loop that fills a
   * map in the order of `xs`, skipping what `keep` rejects.
   */
  function SetAll<X, K(==), V>(m: seq<Entry<K, V>>, xs: seq<X>, keep: X -> bool, key: X -> K, val: X -> V): seq<Entry<K, V>>
    decreases |xs|
  {
    if xs == [] then m
    else
      var rest := SetAll(m, xs[..|xs| - 1], keep, key, val);
      var x := xs[|xs| - 1];
      if keep(x) then Put(rest, key(x), val(x)) else rest
  }

  /** The keys `xs` adds to `ks`, each the first time it is met. */
  function AddKeys<X, K(==)>(ks: seq<K>, xs: seq<X>, keep: X -> bool, key: X -> K): seq<K>
    decreases |xs|
  {
    if xs == [] then ks
    else
      var rest := AddKeys(ks, xs[..|xs| - 1], keep, key);
      var x := xs[|xs| - 1];
      if keep(x) then AddKey(rest, key(x)) else rest
  }

  /** The value the last kept element of `xs` with key `k` gives, if one has that key. */
  function LastWith<X, K(==), V>(xs: seq<X>, keep: X -> bool, key: X -> K, val: X -> V, k: K): Option<V>
    decreases |xs|
  {
    if xs == [] then None
    else
      var x := xs[|xs| - 1];
      if keep(x) && key(x) == k then Some(val(x)) else LastWith(xs[..|xs| - 1], keep, key, val, k)
  }

  /** The keys come out in the order of their first setting. */
  lemma {:induction false} SetAllKeys<X, K, V>(m: seq<Entry<K, V>>, xs: seq<X>, keep: X -> bool, key: X -> K, val: X -> V)
    ensures Keys(SetAll(m, xs, keep, key, val)) == AddKeys(Keys(m), xs, keep, key)
    decreases |xs|
  {
    if xs != [] {
      SetAllKeys(m, xs[..|xs| - 1], keep, key, val);
      var x := xs[|xs| - 1];
      if keep(x) {
        PutKeys(SetAll(m, xs[..|xs| - 1], keep, key, val), key(x), val(x));
      }
    }
  }

  /** Each key reads the value of the last element that set it, or what the map held before. */
  lemma {:induction false} SetAllGet<X, K, V>(m: seq<Entry<K, V>>, xs: seq<X>, keep: X -> bool, key: X -> K, val: X -> V, q: K)
    ensures Get(SetAll(m, xs, keep, key, val), q) ==
      if LastWith(xs, keep, key, val, q).Some? then LastWith(xs, keep, key, val, q) else Get(m, q)
    decreases |xs|
  {
    if xs != [] {
      SetAllGet(m, xs[..|xs| - 1], keep, key, val, q);
      var x := xs[|xs| - 1];
      if keep(x) {
        PutGet(SetAll(m, xs[..|xs| - 1], keep, key, val), key(x), val(x), q);
      }
    }
  }

  /** Appending keys one at a time keeps them distinct. */
  lemma {:induction false} AddKeysDistinct<X, K>(ks: seq<K>, xs: seq<X>, keep: X -> bool, key: X -> K)
    requires Distinct(ks)
    ensures Distinct(AddKeys(ks, xs, keep, key))
    decreases |xs|
  {
    if xs != [] {
      AddKeysDistinct(ks, xs[..|xs| - 1], keep, key);
    }
  }

  /** A key is there afterwards exactly when it was before or a kept element has it. */
  lemma {:induction false} AddKeysMembers<X, K>(ks: seq<K>, xs: seq<X>, keep: X -> bool, key: X -> K, q: K)
    ensures q in AddKeys(ks, xs, keep, key) <==> q in ks || exists i :: 0 <= i < |xs| && keep(xs[i]) && key(xs[i]) == q
    decreases |xs|
  {
    if xs != [] {
      var init := xs[..|xs| - 1];
      AddKeysMembers(ks, init, keep, key, q);
      if exists i :: 0 <= i < |init| && keep(init[i]) && key(init[i]) == q {
        var i :| 0 <= i < |init| && keep(init[i]) && key(init[i]) == q;
        assert xs[i] == init[i];
      }
      if exists i :: 0 <= i < |xs| && keep(xs[i]) && key(xs[i]) == q {
        var i :| 0 <= i < |xs| && keep(xs[i]) && key(xs[i]) == q;
        if i < |init| {
          assert init[i] == xs[i];
        }
      }
    }
  }

  /** The last kept element with that key exists exactly when some kept element has the key, and it has it. */
  lemma {:induction false} LastWithMeaning<X, K, V>(xs: seq<X>, keep: X -> bool, key: X -> K, val: X -> V, k: K)
    ensures LastWith(xs, keep, key, val, k).Some? <==> exists i :: 0 <= i < |xs| && keep(xs[i]) && key(xs[i]) == k
    ensures LastWith(xs, keep, key, val, k).Some? ==>
      exists i :: (0 <= i < |xs| && keep(xs[i]) && key(xs[i]) == k
        && LastWith(xs, keep, key, val, k) == Some(val(xs[i]))
        && forall j :: i < j < |xs| ==> !(keep(xs[j]) && key(xs[j]) == k))
    decreases |xs|
  {
    if xs != [] {
      var init := xs[..|xs| - 1];
      var x := xs[|xs| - 1];
      LastWithMeaning(init, keep, key, val, k);
      if !(keep(x) && key(x) == k) {
        if exists i :: 0 <= i < |init| && keep(init[i]) && key(init[i]) == k {
          var i :| 0 <= i < |init| && keep(init[i]) && key(init[i]) == k
            && LastWith(init, keep, key, val, k) == Some(val(init[i]))
            && forall j :: i < j < |init| ==> !(keep(init[j]) && key(init[j]) == k);
          assert xs[i] == init[i];
          forall j | i < j < |xs|
            ensures !(keep(xs[j]) && key(xs[j]) == k)
          {
            if j < |init| {
              assert xs[j] == init[j];
            }
          }
        }
        if exists i :: 0 <= i < |xs| && keep(xs[i]) && key(xs[i]) == k {
          var i :| 0 <= i < |xs| && keep(xs[i]) && key(xs[i]) == k;
          assert init[i] == xs[i];
        }
      } else {
        assert keep(xs[|xs| - 1]) && key(xs[|xs| - 1]) == k;
      }
    }
  }

  /** Setting values keyed by their own key keeps every entry keyed by its value. */
  lemma {:induction false} SetAllKeyed<X, K, V>(m: seq<Entry<K, V>>, xs: seq<X>, keep: X -> bool, key: X -> K, val: X -> V, vkey: V -> K)
    requires KeyedBy(m, vkey)
    requires forall x :: keep(x) ==> vkey(val(x)) == key(x)
    ensures KeyedBy(SetAll(m, xs, keep, key, val), vkey)
    decreases |xs|
  {
    if xs != [] {
      SetAllKeyed(m, xs[..|xs| - 1], keep, key, val, vkey);
      var x := xs[|xs| - 1];
      if keep(x) {
        PutKeyed(SetAll(m, xs[..|xs| - 1], keep, key, val), vkey, val(x));
      }
    }
  }

  /** `SetAll` over two lists in a row is `SetAll` over their concatenation. */
  lemma {:induction false} SetAllConcat<X, K, V>(m: seq<Entry<K, V>>, a: seq<X>, b: seq<X>, keep: X -> bool, key: X -> K, val: X -> V)
    ensures SetAll(SetAll(m, a, keep, key, val), b, keep, key, val) == SetAll(m, a + b, keep, key, val)
    decreases |b|
  {
    if b != [] {
      assert (a + b)[..|a + b| - 1] == a + b[..|b| - 1];
      assert (a + b)[|a + b| - 1] == b[|b| - 1];
      SetAllConcat(m, a, b[..|b| - 1], keep, key, val);
    } else {
      assert a + b == a;
    }
  }

  /** With distinct keys, the key at an index reads back the value at that index. */
  lemma {:induction false} GetAt<K, V>(m: seq<Entry<K, V>>, p: nat)
    requires Distinct(Keys(m)) && p < |m|
    ensures Get(m, m[p].key) == Some(m[p].value)
  {
    if p > 0 {
      assert Keys(m)[0] != Keys(m)[p];
      assert Distinct(Keys(m[1..])) by {
        forall i, j | 0 <= i < j < |m[1..]|
          ensures Keys(m[1..])[i] != Keys(m[1..])[j]
        {
          assert Keys(m)[i + 1] != Keys(m)[j + 1];
        }
      }
      GetAt(m[1..], p - 1);
      assert m[1..][p - 1] == m[p];
    }
  }

  /** A list without repeats holds each element at most once. */
  lemma {:induction false} DistinctCount<T>(s: seq<T>, x: T)
    requires Distinct(s)
    ensures multiset(s)[x] <= 1
  {
    if s != [] {
      assert s == [s[0]] + s[1..];
      assert Distinct(s[1..]) by {
        forall i, j | 0 <= i < j < |s[1..]|
          ensures s[1..][i] != s[1..][j]
        {
          assert s[i + 1] != s[j + 1];
        }
      }
      DistinctCount(s[1..], x);
      if x == s[0] {
        assert x !in s[1..] by {
          forall i | 0 <= i < |s[1..]|
            ensures s[1..][i] != x
          {
            assert s[0] != s[i + 1];
          }
        }
      }
    }
  }

  /** A rearrangement of a list without repeats has none. */
  lemma DistinctPermuted<T>(a: seq<T>, b: seq<T>)
    requires Distinct(a) && multiset(a) == multiset(b)
    ensures Distinct(b)
  {
    forall i, j | 0 <= i < j < |b|
      ensures b[i] != b[j]
    {
      if b[i] == b[j] {
        assert b == b[..j] + b[j..];
        assert b[i] in b[..j] && b[j] in b[j..];
        assert multiset(b)[b[i]] == multiset(b[..j])[b[i]] + multiset(b[j..])[b[i]];
        DistinctCount(a, b[i]);
        assert false;
      }
    }
  }

  /** Every kept element's key is the key of some value of the filled map. */
  lemma SetAllValuesCover<X, K, V>(m: seq<Entry<K, V>>, xs: seq<X>, keep: X -> bool, key: X -> K, val: X -> V, vkey: V -> K, n: nat)
    requires KeyedBy(m, vkey)
    requires forall x :: keep(x) ==> vkey(val(x)) == key(x)
    requires n < |xs| && keep(xs[n])
    ensures exists p :: 0 <= p < |Values(SetAll(m, xs, keep, key, val))| && vkey(Values(SetAll(m, xs, keep, key, val))[p]) == key(xs[n])
  {
    var r := SetAll(m, xs, keep, key, val);
    SetAllKeyed(m, xs, keep, key, val, vkey);
    SetAllCovers(m, xs, keep, key, val, n);
    var p :| 0 <= p < |r| && Keys(r)[p] == key(xs[n]);
    assert vkey(Values(r)[p]) == key(xs[n]);
  }

  /** Every kept element's key is a key of the filled map. */
  lemma SetAllCovers<X, K, V>(m: seq<Entry<K, V>>, xs: seq<X>, keep: X -> bool, key: X -> K, val: X -> V, n: nat)
    requires n < |xs| && keep(xs[n])
    ensures key(xs[n]) in Keys(SetAll(m, xs, keep, key, val))
  {
    SetAllKeys(m, xs, keep, key, val);
    AddKeysMembers(Keys(m), xs, keep, key, key(xs[n]));
  }
}
