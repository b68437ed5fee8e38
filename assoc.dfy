/**
 * Association lists: the entries of a `serde_json::Map` or an http `HeaderMap`, in
 * iteration order. Nothing in the model depends on which order that is; contracts speak
 * of `Keys` and `Lookup` only.
 */
module Assoc {
  import opened Wrappers

  /** The key set of a map. */
  function Keys<V(==)>(m: seq<(string, V)>): set<string>
  {
    set i | 0 <= i < |m| :: m[i].0
  }

  /** The keys of a map with one more entry in front. */
  lemma KeysCons<V>(x: (string, V), m: seq<(string, V)>)
    ensures Keys([x] + m) == {x.0} + Keys(m)
  {
    var r := [x] + m;
    assert r[0] == x;
    forall k | k in Keys(r) ensures k in {x.0} + Keys(m) {
      var i :| 0 <= i < |r| && r[i].0 == k;
      if i > 0 { assert r[i] == m[i - 1]; }
    }
    forall k | k in Keys(m) ensures k in Keys(r) {
      var i :| 0 <= i < |m| && m[i].0 == k;
      assert r[i + 1] == m[i];
    }
  }

  /** The keys of a prefix one entry longer. */
  lemma KeysPrefix<V>(m: seq<(string, V)>, n: nat)
    requires n < |m|
    ensures Keys(m[..n + 1]) == Keys(m[..n]) + {m[n].0}
  {
    var p := m[..n + 1];
    assert p[n] == m[n];
    forall k | k in Keys(p) ensures k in Keys(m[..n]) + {m[n].0} {
      var i :| 0 <= i < |p| && p[i].0 == k;
      if i < n { assert p[i] == m[..n][i]; }
    }
    forall k | k in Keys(m[..n]) ensures k in Keys(p) {
      var i :| 0 <= i < n && m[..n][i].0 == k;
      assert p[i] == m[..n][i];
    }
  }

  /** No key occurs twice (true of every map the source builds or parses). */
  predicate DistinctKeys<V(==)>(m: seq<(string, V)>)
  {
    forall i, j :: 0 <= i < j < |m| ==> m[i].0 != m[j].0
  }

  /** `Map::get`: the value of the first entry carrying `key` (the only one when keys are distinct). */
  function Lookup<V(==)>(m: seq<(string, V)>, key: string): (r: Option<V>)
    ensures r.None? <==> key !in Keys(m)
    ensures r.Some? ==> exists i :: 0 <= i < |m| && m[i] == (key, r.value) && forall j :: 0 <= j < i ==> m[j].0 != key
  {
    if |m| == 0 then None
    else if m[0].0 == key then Some(m[0].1)
    else
      var r := Lookup(m[1..], key);
      KeysCons(m[0], m[1..]);
      assert [m[0]] + m[1..] == m;
      assert r.Some? ==> exists i :: 0 <= i < |m| && m[i] == (key, r.value) && forall j :: 0 <= j < i ==> m[j].0 != key by {
        if r.Some? {
          var i :| 0 <= i < |m[1..]| && m[1..][i] == (key, r.value) && forall j :: 0 <= j < i ==> m[1..][j].0 != key;
          assert m[i + 1] == (key, r.value) && forall j :: 0 <= j < i + 1 ==> m[j].0 != key;
        }
      }
      r
  }

  /** In a map without duplicate keys, every entry is what `Lookup` finds under its key. */
  lemma {:induction false} LookupDistinct<V>(m: seq<(string, V)>, i: nat)
    requires DistinctKeys(m) && i < |m|
    ensures Lookup(m, m[i].0) == Some(m[i].1)
  {
    if i > 0 {
      DistinctTail(m);
      assert m[1..][i - 1] == m[i];
      LookupDistinct(m[1..], i - 1);
    }
  }

  /** The entries after the first of a map without duplicates have none, nor the first key. */
  lemma DistinctTail<V>(m: seq<(string, V)>)
    requires |m| > 0 && DistinctKeys(m)
    ensures DistinctKeys(m[1..]) && m[0].0 !in Keys(m[1..])
  {
    forall a, b | 0 <= a < b < |m[1..]| ensures m[1..][a].0 != m[1..][b].0 {
      assert m[1..][a] == m[a + 1] && m[1..][b] == m[b + 1];
    }
    forall a | 0 <= a < |m[1..]| ensures m[1..][a].0 != m[0].0 {
      assert m[1..][a] == m[a + 1];
    }
  }

  /** The entries before the last of a map without duplicates have none, nor the last key. */
  lemma DistinctInit<V>(m: seq<(string, V)>)
    requires |m| > 0 && DistinctKeys(m)
    ensures DistinctKeys(m[..|m| - 1]) && m[|m| - 1].0 !in Keys(m[..|m| - 1])
  {
    var prefix := m[..|m| - 1];
    forall a, b | 0 <= a < b < |prefix| ensures prefix[a].0 != prefix[b].0 {
      assert prefix[a] == m[a] && prefix[b] == m[b];
    }
    forall i | 0 <= i < |prefix| ensures prefix[i].0 != m[|m| - 1].0 {
      assert prefix[i] == m[i];
    }
  }

  /** A new key in front of a map without duplicates keeps it without duplicates. */
  lemma DistinctCons<V>(x: (string, V), rest: seq<(string, V)>)
    requires DistinctKeys(rest) && x.0 !in Keys(rest)
    ensures DistinctKeys([x] + rest)
  {
    var r := [x] + rest;
    forall a, b | 0 <= a < b < |r| ensures r[a].0 != r[b].0 {
      assert r[b] == rest[b - 1];
      if a == 0 {
        assert r[b].0 in Keys(rest);
      } else {
        assert r[a] == rest[a - 1];
      }
    }
  }

  /** A literal map of two entries under different keys. */
  lemma PairMap<V>(k0: string, v0: V, k1: string, v1: V)
    requires k0 != k1
    ensures var m := [(k0, v0), (k1, v1)];
      Keys(m) == {k0, k1} && DistinctKeys(m) && Lookup(m, k0) == Some(v0) && Lookup(m, k1) == Some(v1)
  {
    var m := [(k0, v0), (k1, v1)];
    assert m[1..] == [(k1, v1)];
    assert Keys(m) == {k0, k1} by {
      assert m[0].0 == k0 && m[1].0 == k1;
    }
  }

  /** A map of one entry, then up to two optional entries inserted under further distinct keys. */
  lemma OptionalInserts<V>(k0: string, v0: V, k1: string, v1: Option<V>, k2: string, v2: Option<V>)
    requires k0 != k1 && k0 != k2 && k1 != k2
    ensures var m1 := if v1.Some? then Insert([(k0, v0)], k1, v1.value) else [(k0, v0)];
      var m2 := if v2.Some? then Insert(m1, k2, v2.value) else m1;
      Keys(m2) == {k0} + (if v1.Some? then {k1} else {}) + (if v2.Some? then {k2} else {})
      && Lookup(m2, k0) == Some(v0)
      && (v1.Some? ==> Lookup(m2, k1) == v1)
      && (v2.Some? ==> Lookup(m2, k2) == v2)
  {
    var base := [(k0, v0)];
    assert Keys(base) == {k0} by { assert base[0].0 == k0; }
    var m1 := if v1.Some? then Insert(base, k1, v1.value) else base;
    assert Keys(m1) == {k0} + (if v1.Some? then {k1} else {}) && Lookup(m1, k0) == Some(v0);
    if v2.Some? {
      var m2 := Insert(m1, k2, v2.value);
      assert Lookup(m2, k0) == Lookup(m1, k0);
      if v1.Some? {
        assert Lookup(m2, k1) == Lookup(m1, k1);
      }
    }
  }

  /** A literal map of three entries under different keys. */
  lemma TripleMap<V>(k0: string, v0: V, k1: string, v1: V, k2: string, v2: V)
    requires k0 != k1 && k0 != k2 && k1 != k2
    ensures var m := [(k0, v0), (k1, v1), (k2, v2)];
      Keys(m) == {k0, k1, k2} && DistinctKeys(m)
      && Lookup(m, k0) == Some(v0) && Lookup(m, k1) == Some(v1) && Lookup(m, k2) == Some(v2)
  {
    var m := [(k0, v0), (k1, v1), (k2, v2)];
    PairMap(k1, v1, k2, v2);
    assert m[1..] == [(k1, v1), (k2, v2)];
    assert Keys(m) == {k0, k1, k2} by {
      assert m[0].0 == k0 && m[1].0 == k1 && m[2].0 == k2;
    }
  }

  /**
   * `Map::insert`: an existing key keeps its position and gets the new value, a new key
   * is appended.
   */
  function Insert<V(==)>(m: seq<(string, V)>, key: string, value: V): (r: seq<(string, V)>)
    ensures Keys(r) == Keys(m) + {key}
    ensures Lookup(r, key) == Some(value)
    ensures forall k :: k != key ==> Lookup(r, k) == Lookup(m, k)
    ensures |r| == if key in Keys(m) then |m| else |m| + 1
    ensures DistinctKeys(m) ==> DistinctKeys(r)
  {
    if |m| == 0 then
      assert [(key, value)][0].0 == key;
      [(key, value)]
    else
      KeysCons(m[0], m[1..]);
      assert [m[0]] + m[1..] == m;
      if m[0].0 == key then
        var r := [(key, value)] + m[1..];
        KeysCons((key, value), m[1..]);
        assert r[1..] == m[1..];
        r
      else
        var rest := Insert(m[1..], key, value);
        var r := [m[0]] + rest;
        KeysCons(m[0], rest);
        assert r[1..] == rest;

        assert DistinctKeys(m) ==> DistinctKeys(r) by {
          if DistinctKeys(m) {
            DistinctTail(m);
            DistinctCons(m[0], rest);
          }
        }
        r
  }

  /** Every entry of `Insert(m, key, value)` is the new one or an entry of `m`. */
  lemma {:induction false} InsertEntries<V>(m: seq<(string, V)>, key: string, value: V)
    ensures forall i :: 0 <= i < |Insert(m, key, value)| ==>
      Insert(m, key, value)[i] == (key, value) || Insert(m, key, value)[i] in m
    decreases |m|
  {
    if |m| > 0 && m[0].0 != key {
      InsertEntries(m[1..], key, value);
      var r := Insert(m, key, value);
      assert r == [m[0]] + Insert(m[1..], key, value);
      forall i | 0 <= i < |r| ensures r[i] == (key, value) || r[i] in m {
        if i > 0 {
          assert r[i] == Insert(m[1..], key, value)[i - 1];
          assert forall x :: x in m[1..] ==> x in m;
        }
      }
    }
  }

  /** The value of the LAST pair carrying `key`. */
  function LastLookup<V(==)>(pairs: seq<(string, V)>, key: string): Option<V>
    decreases |pairs|
  {
    if pairs == [] then None
    else if pairs[|pairs| - 1].0 == key then Some(pairs[|pairs| - 1].1)
    else LastLookup(pairs[..|pairs| - 1], key)
  }

  /**
   * `collect::<Map<_, _>>()` and the fold of `insert`s it stands for: the pairs are
   * inserted in order.
   */
  function FromPairs<V(==)>(pairs: seq<(string, V)>): (r: seq<(string, V)>)
    ensures Keys(r) == Keys(pairs)
    ensures DistinctKeys(r)
    ensures forall i :: 0 <= i < |r| ==> r[i] in pairs
    decreases |pairs|
  {
    if pairs == [] then []
    else
      var n := |pairs| - 1;
      assert Keys(pairs) == Keys(pairs[..n]) + {pairs[n].0} by {
        forall k | k in Keys(pairs) ensures k in Keys(pairs[..n]) + {pairs[n].0} {
          var i :| 0 <= i < |pairs| && pairs[i].0 == k;
          if i < n { assert pairs[..n][i] == pairs[i]; }
        }
      }
      assert forall x :: x in pairs[..n] ==> x in pairs;
      InsertEntries(FromPairs(pairs[..n]), pairs[n].0, pairs[n].1);
      Insert(FromPairs(pairs[..n]), pairs[n].0, pairs[n].1)
  }

  /** When two pairs share a key, the later value is the one that stays. */
  lemma {:induction false} FromPairsLastWins<V>(pairs: seq<(string, V)>, key: string)
    ensures Lookup(FromPairs(pairs), key) == LastLookup(pairs, key)
    decreases |pairs|
  {
    if pairs != [] {
      FromPairsLastWins(pairs[..|pairs| - 1], key);
    }
  }

  /** Collecting pairs whose keys are already distinct changes nothing. */
  lemma {:induction false} FromDistinctPairs<V>(pairs: seq<(string, V)>)
    requires DistinctKeys(pairs)
    ensures FromPairs(pairs) == pairs
    decreases |pairs|
  {
    if pairs != [] {
      var n := |pairs| - 1;
      var prefix, last := pairs[..n], pairs[n];
      assert pairs == prefix + [last];
      DistinctInit(pairs);
      FromDistinctPairs(prefix);
      calc {
        FromPairs(pairs);
        { FromPairsSnoc(prefix, last); }
        Insert(FromPairs(prefix), last.0, last.1);
        Insert(prefix, last.0, last.1);
        { AppendNewKey(prefix, last.0, last.1); }
        prefix + [last];
      }
    }
  }

  /** Inserting a key that is not there appends it. */
  lemma {:induction false} AppendNewKey<V>(m: seq<(string, V)>, key: string, value: V)
    requires key !in Keys(m)
    ensures Insert(m, key, value) == m + [(key, value)]
    decreases |m|
  {
    if |m| > 0 {
      KeysCons(m[0], m[1..]);
      assert [m[0]] + m[1..] == m;
      AppendNewKey(m[1..], key, value);
      assert [m[0]] + (m[1..] + [(key, value)]) == m + [(key, value)];
    }
  }

  /** `iter().map(|(k, v)| (k, f(v)))`: the same keys in the same order, each value mapped. */
  function MapValues<V(==), W(==)>(m: seq<(string, V)>, f: V -> W): (r: seq<(string, W)>)
    ensures |r| == |m| && forall i :: 0 <= i < |m| ==> r[i] == (m[i].0, f(m[i].1))
    ensures Keys(r) == Keys(m)
    ensures DistinctKeys(m) ==> DistinctKeys(r)
  {
    var r := seq(|m|, i requires 0 <= i < |m| => (m[i].0, f(m[i].1)));
    assert forall i :: 0 <= i < |m| ==> r[i].0 == m[i].0;
    r
  }

  /** Collecting one more pair inserts it into what was collected before. */
  lemma FromPairsSnoc<V>(pairs: seq<(string, V)>, last: (string, V))
    ensures FromPairs(pairs + [last]) == Insert(FromPairs(pairs), last.0, last.1)
  {
    assert (pairs + [last])[..|pairs|] == pairs;
  }

  /** Mapping the values of one more entry appends its mapped entry. */
  lemma MapValuesSnoc<V, W>(m: seq<(string, V)>, n: nat, f: V -> W)
    requires n < |m|
    ensures MapValues(m[..n + 1], f) == MapValues(m[..n], f) + [(m[n].0, f(m[n].1))]
  {
  }
}
