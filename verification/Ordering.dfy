/** Stable sorting as `sorted` promises it, and an ordered query over a relation. */
module Ordering {
  // ---- sorted ----

  /** Places `x` after every element whose key is not larger. */
  function Insert<T>(s: seq<T>, x: T, key: T -> real): (r: seq<T>)
    ensures |r| == |s| + 1
    decreases |s|
  {
    if s == [] || key(s[|s| - 1]) <= key(x) then s + [x] else Insert(s[..|s| - 1], x, key) + [s[|s| - 1]]
  }

  function Sorted<T>(s: seq<T>, key: T -> real): (r: seq<T>)
    ensures |r| == |s|
    decreases |s|
  {
    if s == [] then [] else Insert(Sorted(s[..|s| - 1], key), s[|s| - 1], key)
  }

  ghost predicate Nondecreasing<T>(s: seq<T>, key: T -> real) {
    forall i, j :: 0 <= i < j < |s| ==> key(s[i]) <= key(s[j])
  }

  /** The elements with one key, in order. */
  function Having<T>(s: seq<T>, key: T -> real, v: real): seq<T>
    decreases |s|
  {
    if s == [] then []
    else Having(s[..|s| - 1], key, v) + if key(s[|s| - 1]) == v then [s[|s| - 1]] else []
  }

  /** Keys never decrease, and elements with equal keys keep their order. */
  ghost predicate StableSort<T>(out: seq<T>, s: seq<T>, key: T -> real) {
    Nondecreasing(out, key) && forall v :: Having(out, key, v) == Having(s, key, v)
  }

  lemma HavingLast<T>(s: seq<T>, x: T, key: T -> real, v: real)
    ensures Having(s + [x], key, v) == Having(s, key, v) + if key(x) == v then [x] else []
  {
    assert (s + [x])[..|s|] == s;
  }

  lemma {:induction false} HavingNone<T>(s: seq<T>, key: T -> real, v: real)
    requires forall i :: 0 <= i < |s| ==> key(s[i]) != v
    ensures Having(s, key, v) == []
    decreases |s|
  {
    if s != [] {
      HavingNone(s[..|s| - 1], key, v);
    }
  }

  lemma {:induction false} HavingConcat<T>(a: seq<T>, b: seq<T>, key: T -> real, v: real)
    ensures Having(a + b, key, v) == Having(a, key, v) + Having(b, key, v)
    decreases |b|
  {
    if b == [] {
      assert a + b == a;
    } else {
      assert (a + b)[..|a + b| - 1] == a + b[..|b| - 1];
      HavingConcat(a, b[..|b| - 1], key, v);
    }
  }

  /** Where an element lands: nothing before the place is larger next to it, everything after is. */
  lemma {:induction false} InsertAt<T>(s: seq<T>, x: T, key: T -> real) returns (k: nat)
    ensures k <= |s| && Insert(s, x, key) == s[..k] + [x] + s[k..]
    ensures k > 0 ==> key(s[k - 1]) <= key(x)
    ensures forall i :: k <= i < |s| ==> key(s[i]) > key(x)
    decreases |s|
  {
    k := |s|;
    if s != [] && key(s[|s| - 1]) > key(x) {
      var init := s[..|s| - 1];
      k := InsertAt(init, x, key);
      assert init[k..] + [s[|s| - 1]] == s[k..] && init[..k] == s[..k];
    }
  }

  lemma InsertNondecreasing<T>(s: seq<T>, x: T, key: T -> real)
    requires Nondecreasing(s, key)
    ensures Nondecreasing(Insert(s, x, key), key)
  {
    var k := InsertAt(s, x, key);
    var r := Insert(s, x, key);
    forall i, j | 0 <= i < j < |r| ensures key(r[i]) <= key(r[j]) {
      if i < k == j && i < k - 1 {
        assert key(s[i]) <= key(s[k - 1]);
      }
    }
  }

  lemma InsertHaving<T>(s: seq<T>, x: T, key: T -> real, v: real)
    ensures Having(Insert(s, x, key), key, v) == Having(s + [x], key, v)
  {
    hide Having, Insert;
    var k := InsertAt(s, x, key);
    var a, b := s[..k], s[k..];
    assert s == a + b && Insert(s, x, key) == (a + [x]) + b;
    HavingConcat(a + [x], b, key, v);
    HavingLast(a, x, key, v);
    HavingConcat(a, b, key, v);
    HavingLast(s, x, key, v);
    if key(x) == v {
      HavingNone(b, key, v);
    }
  }

  predicate Within<T(==)>(a: seq<T>, b: seq<T>) { forall i :: 0 <= i < |a| ==> a[i] in b }

  lemma InsertWithin<T>(s: seq<T>, x: T, key: T -> real)
    ensures Within(Insert(s, x, key), s + [x]) && Within(s + [x], Insert(s, x, key))
  {
    var k := InsertAt(s, x, key);
    var r := Insert(s, x, key);
    forall i | 0 <= i < |r| ensures r[i] in s + [x] {
      assert r[i] == if i < k then (s + [x])[i] else if i == k then (s + [x])[|s|] else (s + [x])[i - 1];
    }
    forall i | 0 <= i <= |s| ensures (s + [x])[i] in r {
      assert (s + [x])[i] == if i < k then r[i] else if i == |s| then r[k] else r[i + 1];
    }
  }

  lemma WithinTransitive<T>(a: seq<T>, b: seq<T>, c: seq<T>)
    requires Within(a, b) && Within(b, c)
    ensures Within(a, c)
  {
    forall i | 0 <= i < |a| ensures a[i] in c {
      assert a[i] in b;
      var j :| 0 <= j < |b| && b[j] == a[i];
    }
  }

  lemma WithinLast<T>(a: seq<T>, b: seq<T>, x: T)
    requires Within(a, b)
    ensures Within(a + [x], b + [x])
  {
    forall i | 0 <= i <= |a| ensures (a + [x])[i] in b + [x] {
      if i < |a| {
        assert a[i] in b;
        var j :| 0 <= j < |b| && b[j] == a[i];
        assert (b + [x])[j] == a[i];
      } else {
        assert (b + [x])[|b|] == x;
      }
    }
  }

  /** Sorting neither loses nor adds elements. */
  lemma {:induction false} SortedWithin<T>(s: seq<T>, key: T -> real)
    ensures Within(Sorted(s, key), s) && Within(s, Sorted(s, key))
    decreases |s|
  {
    if s != [] {
      var init, last := s[..|s| - 1], s[|s| - 1];
      var t := Sorted(init, key);
      assert s == init + [last];
      SortedWithin(init, key);
      InsertWithin(t, last, key);
      WithinLast(t, init, last);
      WithinLast(init, t, last);
      WithinTransitive(Sorted(s, key), t + [last], s);
      WithinTransitive(s, t + [last], Sorted(s, key));
    }
  }

  lemma {:induction false} SortedHaving<T>(s: seq<T>, key: T -> real, v: real)
    ensures Nondecreasing(Sorted(s, key), key) && Having(Sorted(s, key), key, v) == Having(s, key, v)
    decreases |s|
  {
    if s != [] {
      var init, last := s[..|s| - 1], s[|s| - 1];
      assert s == init + [last];
      SortedHaving(init, key, v);
      InsertNondecreasing(Sorted(init, key), last, key);
      InsertHaving(Sorted(init, key), last, key, v);
      HavingLast(Sorted(init, key), last, key, v);
      HavingLast(init, last, key, v);
    }
  }

  lemma SortedStable<T>(s: seq<T>, key: T -> real)
    ensures StableSort(Sorted(s, key), s, key)
  {
    SortedHaving(s, key, 0.0);
    forall v ensures Having(Sorted(s, key), key, v) == Having(s, key, v) {
      SortedHaving(s, key, v);
    }
  }

  lemma LastHaving<T>(s: seq<T>, key: T -> real)
    requires s != []
    ensures
      var h := Having(s, key, key(s[|s| - 1]));
      h != [] && h[|h| - 1] == s[|s| - 1] && h[..|h| - 1] == Having(s[..|s| - 1], key, key(s[|s| - 1]))
  {
  }

  /** A nonempty class means some element has that key, so the last key is at least that. */
  lemma LastBound<T>(s: seq<T>, key: T -> real, v: real)
    requires Nondecreasing(s, key) && Having(s, key, v) != []
    ensures s != [] && v <= key(s[|s| - 1])
  {
    assert !forall i :: 0 <= i < |s| ==> key(s[i]) != v by {
      if forall i :: 0 <= i < |s| ==> key(s[i]) != v {
        HavingNone(s, key, v);
      }
    }
  }

  lemma StripLast<T>(a: seq<T>, b: seq<T>, key: T -> real, v: real)
    requires a != [] && b != [] && key(a[|a| - 1]) == key(b[|b| - 1])
    requires Having(a, key, v) == Having(b, key, v)
    ensures Having(a[..|a| - 1], key, v) == Having(b[..|b| - 1], key, v)
  {
    var ha, hb := Having(a[..|a| - 1], key, v), Having(b[..|b| - 1], key, v);
    if key(a[|a| - 1]) == v {
      assert ha == (ha + [a[|a| - 1]])[..|ha|] && hb == (hb + [b[|b| - 1]])[..|hb|];
    } else {
      assert ha == ha + [] && hb == hb + [];
    }
  }

  /** There is only one stable sort. */
  lemma {:induction false} StableUnique<T>(a: seq<T>, b: seq<T>, key: T -> real)
    requires Nondecreasing(a, key) && Nondecreasing(b, key)
    requires forall v :: Having(a, key, v) == Having(b, key, v)
    ensures a == b
    decreases |a|
  {
    hide Having;
    if a == [] {
      if b != [] {
        LastHaving(b, key);
        HavingNone(a, key, key(b[|b| - 1]));
      }
    } else {
      var ka := key(a[|a| - 1]);
      LastHaving(a, key);
      LastBound(b, key, ka);
      var kb := key(b[|b| - 1]);
      LastHaving(b, key);
      assert Having(a, key, kb) == Having(b, key, kb);
      LastBound(a, key, kb);
      assert ka == kb;
      var a0, b0 := a[..|a| - 1], b[..|b| - 1];
      forall v ensures Having(a0, key, v) == Having(b0, key, v) {
        assert Having(a, key, v) == Having(b, key, v);
        StripLast(a, b, key, v);
      }
      StableUnique(a0, b0, key);
      assert a == a0 + [a[|a| - 1]] && b == b0 + [b[|b| - 1]];
    }
  }

  /** The sorting function is exactly the stable sort. */
  lemma SortedIff<T>(out: seq<T>, s: seq<T>, key: T -> real)
    ensures out == Sorted(s, key) <==> StableSort(out, s, key)
  {
    SortedStable(s, key);
    if StableSort(out, s, key) {
      StableUnique(out, Sorted(s, key), key);
    }
  }

  // ---- counting ----

  /** How many places hold an element with the property. */
  function Tally<T>(s: seq<T>, p: T -> bool): nat
    decreases |s|
  {
    if s == [] then 0 else Tally(s[..|s| - 1], p) + if p(s[|s| - 1]) then 1 else 0
  }

  ghost function Spots<T>(s: seq<T>, p: T -> bool): set<int> { set i | 0 <= i < |s| && p(s[i]) }

  lemma SpotsLast<T>(s: seq<T>, p: T -> bool)
    requires s != []
    ensures
      var n := |s| - 1;
      && n !in Spots(s[..n], p)
      && Spots(s, p) == if p(s[n]) then Spots(s[..n], p) + {n} else Spots(s[..n], p)
  {
    var n := |s| - 1;
    var init := s[..n];
    assert forall i :: 0 <= i < n ==> init[i] == s[i];
  }

  lemma {:induction false} TallyIs<T>(s: seq<T>, p: T -> bool)
    ensures Tally(s, p) == |Spots(s, p)|
    decreases |s|
  {
    hide Spots;
    if s == [] {
      NoSpots(s, p);
    } else {
      TallyIs(s[..|s| - 1], p);
      SpotsLast(s, p);
    }
  }

  lemma NoSpots<T>(s: seq<T>, p: T -> bool)
    requires s == []
    ensures Spots(s, p) == {}
  {
  }

  lemma {:induction false} TallyConcat<T>(a: seq<T>, b: seq<T>, p: T -> bool)
    ensures Tally(a + b, p) == Tally(a, p) + Tally(b, p)
    decreases |b|
  {
    if b == [] {
      assert a + b == a;
    } else {
      assert (a + b)[..|a + b| - 1] == a + b[..|b| - 1];
      TallyConcat(a, b[..|b| - 1], p);
    }
  }

  /** Sorting changes no count. */
  lemma {:induction false} TallySorted<T>(s: seq<T>, key: T -> real, p: T -> bool)
    ensures Tally(Sorted(s, key), p) == Tally(s, p)
    decreases |s|
  {
    hide Insert;
    if s != [] {
      var init, x := s[..|s| - 1], s[|s| - 1];
      TallySorted(init, key, p);
      var t := Sorted(init, key);
      var k := InsertAt(t, x, key);
      TallyConcat(t[..k] + [x], t[k..], p);
      TallyConcat(t[..k], [x], p);
      TallyConcat(t[..k], t[k..], p);
      assert t == t[..k] + t[k..];
      assert Tally([x], p) == if p(x) then 1 else 0;
    }
  }

  lemma {:induction false} TallyAll<T>(s: seq<T>, p: T -> bool)
    requires forall i :: 0 <= i < |s| ==> p(s[i])
    ensures Tally(s, p) == |s|
    decreases |s|
  {
    if s != [] {
      TallyAll(s[..|s| - 1], p);
    }
  }

  lemma {:induction false} TallyNone<T>(s: seq<T>, p: T -> bool)
    requires forall i :: 0 <= i < |s| ==> !p(s[i])
    ensures Tally(s, p) == 0
    decreases |s|
  {
    if s != [] {
      TallyNone(s[..|s| - 1], p);
    }
  }

  lemma {:induction false} TallyBounded<T>(s: seq<T>, p: T -> bool)
    ensures Tally(s, p) <= |s|
    decreases |s|
  {
    if s != [] {
      TallyBounded(s[..|s| - 1], p);
    }
  }

  lemma TallyFirst<T>(s: seq<T>, k: nat, p: T -> bool)
    requires k <= |s| && forall i :: 0 <= i < k ==> p(s[i])
    ensures Tally(s, p) >= k
  {
    hide Tally;
    assert s == s[..k] + s[k..];
    TallyConcat(s[..k], s[k..], p);
    TallyAll(s[..k], p);
  }

  lemma TallyRest<T>(s: seq<T>, k: nat, p: T -> bool)
    requires k <= |s| && forall i :: k <= i < |s| ==> !p(s[i])
    ensures Tally(s, p) <= k
  {
    hide Tally;
    assert s == s[..k] + s[k..];
    TallyConcat(s[..k], s[k..], p);
    TallyBounded(s[..k], p);
    TallyNone(s[k..], p);
  }

  /** What stands at place `k` of a sorted list: more than `k` elements are not larger, and at most
      `k` are smaller. */
  lemma TallyAround<T>(s: seq<T>, key: T -> real, k: nat, most: T -> bool, less: T -> bool)
    requires Nondecreasing(s, key) && k < |s|
    requires forall i :: 0 <= i < |s| ==> most(s[i]) == (key(s[i]) <= key(s[k]))
    requires forall i :: 0 <= i < |s| ==> less(s[i]) == (key(s[i]) < key(s[k]))
    ensures Tally(s, most) > k && Tally(s, less) <= k
  {
    hide Tally;
    assert forall i :: 0 <= i < k ==> key(s[i]) <= key(s[k]);
    assert forall i :: k < i < |s| ==> key(s[k]) <= key(s[i]);
    TallyFirst(s, k + 1, most);
    TallyRest(s, k, less);
  }

  // ---- an ordered query ----

  datatype Row<T> = Row(value: real, ordinal: nat, payload: T)

  predicate Before<T>(a: Row<T>, b: Row<T>) {
    a.value < b.value || (a.value == b.value && a.ordinal < b.ordinal)
  }

  ghost predicate Increasing<T>(s: seq<Row<T>>) { forall i, j :: 0 <= i < j < |s| ==> Before(s[i], s[j]) }

  /** The answer to a query ordered by value, then ordinal: every row once, in strict order. */
  ghost predicate Enumerates<T>(out: seq<Row<T>>, rows: seq<Row<T>>) {
    Increasing(out) && Within(out, rows) && Within(rows, out)
  }

  /** Ordinals grow in the order the rows were inserted. */
  ghost predicate Numbered<T>(rows: seq<Row<T>>) {
    forall i, j :: 0 <= i < j < |rows| ==> rows[i].ordinal < rows[j].ordinal
  }

  function ValueOf<T>(r: Row<T>): real { r.value }

  lemma InsertIncreasing<T>(s: seq<Row<T>>, x: Row<T>)
    requires Increasing(s) && forall i :: 0 <= i < |s| ==> s[i].ordinal < x.ordinal
    ensures Increasing(Insert(s, x, ValueOf))
  {
    var k := InsertAt(s, x, ValueOf);
    var r := Insert(s, x, ValueOf);
    forall i, j | 0 <= i < j < |r| ensures Before(r[i], r[j]) {
      if k > 0 && i < k == j && i < k - 1 {
        assert Before(s[i], s[k - 1]);
      }
    }
  }

  lemma {:induction false} SortedIncreasing<T>(rows: seq<Row<T>>)
    requires Numbered(rows)
    ensures Increasing(Sorted(rows, ValueOf))
    decreases |rows|
  {
    if rows != [] {
      var init, last := rows[..|rows| - 1], rows[|rows| - 1];
      SortedIncreasing(init);
      SortedWithin(init, ValueOf);
      var s := Sorted(init, ValueOf);
      forall i | 0 <= i < |s| ensures s[i].ordinal < last.ordinal {
        assert s[i] in init;
        var j :| 0 <= j < |init| && init[j] == s[i];
        assert rows[j] == s[i];
      }
      InsertIncreasing(s, last);
    }
  }

  lemma SortedEnumerates<T>(rows: seq<Row<T>>)
    requires Numbered(rows)
    ensures Enumerates(Sorted(rows, ValueOf), rows)
  {
    SortedIncreasing(rows);
    SortedWithin(rows, ValueOf);
  }

  /** Two strict enumerations of the same rows are equal. */
  lemma {:induction false} EnumerationUnique<T>(a: seq<Row<T>>, b: seq<Row<T>>)
    requires Increasing(a) && Increasing(b) && Within(a, b) && Within(b, a)
    ensures a == b
    decreases |a|
  {
    if b != [] {
      assert b[0] in a;
    }
    if a != [] {
      assert a[0] in b;
      FirstAgree(a, b);
      DropFirst(a, b);
      DropFirst(b, a);
      EnumerationUnique(a[1..], b[1..]);
      assert a == [a[0]] + a[1..] && b == [b[0]] + b[1..];
    }
  }

  lemma FirstAgree<T>(a: seq<Row<T>>, b: seq<Row<T>>)
    requires a != [] && b != [] && Increasing(a) && Increasing(b) && Within(a, b) && Within(b, a)
    ensures a[0] == b[0]
  {
    assert a[0] in b && b[0] in a;
    var i :| 0 <= i < |b| && b[i] == a[0];
    var j :| 0 <= j < |a| && a[j] == b[0];
  }

  lemma DropFirst<T>(a: seq<Row<T>>, b: seq<Row<T>>)
    requires a != [] && b != [] && Increasing(a) && Within(a, b) && a[0] == b[0]
    ensures Within(a[1..], b[1..]) && Increasing(a[1..])
  {
    forall i | 0 <= i < |a[1..]| ensures a[1..][i] in b[1..] {
      assert a[1..][i] == a[i + 1] && Before(a[0], a[i + 1]) && a[i + 1] in b;
      var j :| 0 <= j < |b| && b[j] == a[i + 1];
      assert b[j] == b[1..][j - 1];
    }
  }

  /** The ordered query answers exactly the stable sort by value of the rows as inserted. */
  lemma QueryIff<T>(out: seq<Row<T>>, rows: seq<Row<T>>)
    requires Numbered(rows)
    ensures Enumerates(out, rows) <==> out == Sorted(rows, ValueOf)
  {
    SortedEnumerates(rows);
    if Enumerates(out, rows) {
      var s := Sorted(rows, ValueOf);
      WithinTransitive(out, rows, s);
      WithinTransitive(s, rows, out);
      EnumerationUnique(out, s);
    }
  }

  // ---- mapping ----

  function Mapped<A, B>(f: A -> B, s: seq<A>): (r: seq<B>)
    ensures |r| == |s|
  {
    seq(|s|, i requires 0 <= i < |s| => f(s[i]))
  }

  lemma MappedAppend<A, B>(f: A -> B, s: seq<A>, x: A)
    ensures Mapped(f, s + [x]) == Mapped(f, s) + [f(x)]
  {
  }

  lemma {:induction false} InsertMapped<A, B>(s: seq<A>, x: A, f: A -> B, key: A -> real, image: B -> real)
    requires image(f(x)) == key(x) && forall i :: 0 <= i < |s| ==> image(f(s[i])) == key(s[i])
    ensures Mapped(f, Insert(s, x, key)) == Insert(Mapped(f, s), f(x), image)
    decreases |s|
  {
    var m := Mapped(f, s);
    if s == [] {
      assert m == [];
    } else {
      assert m[..|m| - 1] == Mapped(f, s[..|s| - 1]);
      InsertMapped(s[..|s| - 1], x, f, key, image);
    }
  }

  /** Sorting commutes with a map that keeps the keys. */
  lemma {:induction false} SortedMapped<A, B>(s: seq<A>, f: A -> B, key: A -> real, image: B -> real)
    requires forall i :: 0 <= i < |s| ==> image(f(s[i])) == key(s[i])
    ensures Mapped(f, Sorted(s, key)) == Sorted(Mapped(f, s), image)
    decreases |s|
  {
    if s != [] {
      var init, last := s[..|s| - 1], s[|s| - 1];
      SortedMapped(init, f, key, image);
      SortedWithin(init, key);
      assert Mapped(f, s)[..|s| - 1] == Mapped(f, init);
      forall i | 0 <= i < |init| ensures image(f(Sorted(init, key)[i])) == key(Sorted(init, key)[i]) {
        assert Sorted(init, key)[i] in init;
      }
      InsertMapped(Sorted(init, key), last, f, key, image);
    }
  }
}
