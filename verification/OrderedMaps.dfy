/** The insertion-ordered `Map` of the source: an association list with distinct keys.
    Writing a key that is present keeps its place; a new key goes to the end. */
module OrderedMaps {
  datatype Entry<K, V> = Entry(key: K, value: V)

  predicate Distinct<K(==), V>(m: seq<Entry<K, V>>) {
    forall i, j :: 0 <= i < j < |m| ==> m[i].key != m[j].key
  }

  function Keys<K(==), V>(m: seq<Entry<K, V>>): set<K> {
    set i | 0 <= i < |m| :: m[i].key
  }

  /** Position of `k`, or the length of the map when `k` is absent. */
  function Find<K(==), V>(m: seq<Entry<K, V>>, k: K): (i: nat)
    ensures i <= |m|
    ensures i < |m| ==> m[i].key == k
    ensures forall j :: 0 <= j < i ==> m[j].key != k
  {
    if m == [] then 0 else if m[0].key == k then 0 else 1 + Find(m[1..], k)
  }

  predicate Has<K(==), V>(m: seq<Entry<K, V>>, k: K) {
    Find(m, k) < |m|
  }

  function Get<K(==), V>(m: seq<Entry<K, V>>, k: K): V
    requires Has(m, k)
  {
    m[Find(m, k)].value
  }

  function Put<K(==), V>(m: seq<Entry<K, V>>, k: K, v: V): (r: seq<Entry<K, V>>)
    ensures Distinct(m) ==> Distinct(r)
  {
    if Has(m, k) then m[Find(m, k) := Entry(k, v)] else m + [Entry(k, v)]
  }

  function Remove<K(==), V>(m: seq<Entry<K, V>>, k: K): (r: seq<Entry<K, V>>)
    ensures Distinct(m) ==> Distinct(r)
  {
    if Has(m, k) then m[..Find(m, k)] + m[Find(m, k) + 1..] else m
  }

  function Sum<K, V>(m: seq<Entry<K, V>>, f: V -> int): int {
    if m == [] then 0 else f(m[0].value) + Sum(m[1..], f)
  }

  lemma HasKeys<K, V>(m: seq<Entry<K, V>>, k: K)
    ensures Has(m, k) <==> k in Keys(m)
  {
    if Has(m, k) {
      assert m[Find(m, k)].key in Keys(m);
    }
  }

  lemma PutKeys<K, V>(m: seq<Entry<K, V>>, k: K, v: V)
    ensures Keys(Put(m, k, v)) == Keys(m) + {k}
  {
    forall x ensures x in Keys(Put(m, k, v)) <==> x in Keys(m) + {k} {
      HasKeys(m, x);
      HasKeys(Put(m, k, v), x);
      PutLookup(m, k, v, x);
    }
  }

  lemma FindAt<K, V>(m: seq<Entry<K, V>>, i: nat)
    requires Distinct(m) && i < |m|
    ensures Find(m, m[i].key) == i
  {
  }

  lemma PutLookup<K, V>(m: seq<Entry<K, V>>, k: K, v: V, x: K)
    ensures Has(Put(m, k, v), x) <==> x == k || Has(m, x)
    ensures Has(Put(m, k, v), x) ==> Get(Put(m, k, v), x) == if x == k then v else Get(m, x)
  {
    var r := Put(m, k, v);
    if Has(m, x) {
      assert r[Find(m, x)].key == x;
      assert forall j :: 0 <= j < Find(m, x) ==> r[j].key != x;
    }
    if x == k && !Has(m, x) {
      assert r[|m|].key == x;
    }
  }

  lemma RemoveLookup<K, V>(m: seq<Entry<K, V>>, k: K, x: K)
    requires Distinct(m)
    ensures Has(Remove(m, k), x) <==> x != k && Has(m, x)
    ensures Has(Remove(m, k), x) ==> Get(Remove(m, k), x) == Get(m, x)
  {
    var r := Remove(m, k);
    if Has(m, k) {
      var i := Find(m, k);
      if x != k && Has(m, x) {
        var j := if Find(m, x) < i then Find(m, x) else Find(m, x) - 1;
        assert r[j] == m[Find(m, x)];
        FindAt(r, j);
      }
      if Has(r, x) {
        var j := Find(r, x);
        var j' := if j < i then j else j + 1;
        assert r[j] == m[j'];
        FindAt(m, j');
      }
    }
  }

  lemma {:induction false} SumConcat<K, V>(a: seq<Entry<K, V>>, b: seq<Entry<K, V>>, f: V -> int)
    ensures Sum(a + b, f) == Sum(a, f) + Sum(b, f)
  {
    if a == [] {
      assert a + b == b;
    } else {
      assert (a + b)[1..] == a[1..] + b;
      SumConcat(a[1..], b, f);
    }
  }

  lemma SumSplit<K, V>(m: seq<Entry<K, V>>, i: nat, f: V -> int)
    requires i < |m|
    ensures Sum(m, f) == Sum(m[..i], f) + f(m[i].value) + Sum(m[i + 1..], f)
  {
    var tail := m[i..];
    assert m == m[..i] + tail;
    SumConcat(m[..i], tail, f);
    assert tail[0] == m[i] && tail[1..] == m[i + 1..];
  }

  lemma SumPut<K, V>(m: seq<Entry<K, V>>, k: K, v: V, f: V -> int)
    ensures Sum(Put(m, k, v), f) == Sum(m, f) + f(v) - if Has(m, k) then f(Get(m, k)) else 0
  {
    var r := Put(m, k, v);
    if Has(m, k) {
      var i := Find(m, k);
      SumSplit(m, i, f);
      SumSplit(r, i, f);
      assert r[..i] == m[..i] && r[i + 1..] == m[i + 1..];
    } else {
      SumConcat(m, [Entry(k, v)], f);
    }
  }

  lemma SumRemove<K, V>(m: seq<Entry<K, V>>, k: K, f: V -> int)
    requires Has(m, k)
    ensures Sum(Remove(m, k), f) == Sum(m, f) - f(Get(m, k))
  {
    var i := Find(m, k);
    SumSplit(m, i, f);
    SumConcat(m[..i], m[i + 1..], f);
  }

  lemma {:induction false} SumNonNegative<K, V>(m: seq<Entry<K, V>>, f: V -> int)
    requires forall i :: 0 <= i < |m| ==> f(m[i].value) >= 0
    ensures Sum(m, f) >= 0
  {
    if m != [] {
      SumNonNegative(m[1..], f);
    }
  }

  lemma SumAtLeast<K, V>(m: seq<Entry<K, V>>, k: K, f: V -> int)
    requires Has(m, k)
    requires forall i :: 0 <= i < |m| ==> f(m[i].value) >= 0
    ensures Sum(m, f) >= f(Get(m, k))
  {
    var i := Find(m, k);
    SumSplit(m, i, f);
    SumNonNegative(m[..i], f);
    SumNonNegative(m[i + 1..], f);
  }

  lemma FindUpdate<K, V>(m: seq<Entry<K, V>>, k: K, v: V)
    requires Has(m, k)
    ensures Find(m[Find(m, k) := Entry(k, v)], k) == Find(m, k)
  {
    hide Find, Distinct;
    var i := Find(m, k);
    var r := m[i := Entry(k, v)];
    assert r[i].key == k;
    assert forall j :: 0 <= j < i ==> r[j] == m[j];
  }
}
